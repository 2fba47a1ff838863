# saqc rule engine — a Dafny model

This project models the core of saqc, a system for quality control of time
series. A configuration lists, row by row, a variable, a date window and
one test per test column. The engine runs every test on the window of its
variable and records flags in a flagger. The model covers six parts:

- **Tools** models the window scanner from `lib/tools.py`. `saqc/lib/tools.py`
  carries the same text on lines 14-71, so one module models both copies.
  - `findIndex` is a linear search.
  - `valueRange` returns max − min with int64 wrap-around.
  - `slidingWindowIndices` is the generator of `(start, end)` index pairs;
    here it is a method returning the whole sequence, or the error it raises.
- **Frames** holds the shared vocabulary:
  - a sample is `NaN` or a number;
  - a flag cell is `Option<int>`;
  - tables are maps from column names to equally long columns;
  - a date window `loc[start:end]` is the contiguous index range `Span`;
  - write-back is `Splice`;
  - `Table<T>` is the mutable table that `.loc` assignment updates.
- **Propagation** models `flagNext` and `_periodToTicks` from `core.py`.
  - `FlagNext` works in place on an `array`, one round per offset.
  - It is proved equal to a closed form, `Propagated`: an unflagged cell
    takes the value of its nearest flagged predecessor within `n`.
- **Runner** models `runner` and `prepareMeta` from `core.py`.
  - The reference definition is a left fold: `RowStep`, then `RunRows` over the
    rows of one test column, then `RunColumns` over the columns.
  - The imperative `Run` (nested loops, `Table` write-back and the
    `RunFlagger.NextTest` counter) is proved to compute exactly that fold.
- **Functions** models `flagConstant`, `flagMad` and `flagManual` from
  `funcs/functions.py`.
  - Each imperative method (array loops, in-place differencing of the
    shared `values` buffer, the per-window `mask`) is proved against a fold
    over the scanner's windows.
- **SaqcCore** models `collectVariables`, `_check_input` and `runner` from
  `saqc/core/core.py`.
  - The flagger is a value threaded through the fold.
  - `evalExpression` is an abstract `Evaluator`.
  - The flag-order scenario of `test_flagOrder` is proved for a flagger
    that never lowers a flag. A contrasting lemma shows that an
    overwriting flagger breaks it.

Timestamps are strictly increasing integers. The flagger is a value with
three parts: `isFlagged`, `setFlag` and the unflagged value. The test
dispatcher and the expression evaluator are function-valued parameters.

Two behaviours of the code are worth pointing out:

- **The saqc runner's skip rule.** `saqc/core/core.py:104` skips a row
  only when its variable is in neither the data nor the flagger's columns.
  `SaqcCore.Skipped` models exactly this.
- **Missing start dates in `prepareMeta`.** `core.py:122-124` fills them
  with `data.index.max()`, not with the first timestamp.
  `Runner.PrepareMeta` models this, and "## Findings" records it.

## Model

| member | source | states |
|---|---|---|
| Tools.FirstIndexSpec | lib/tools.py:15-25 | findIndex returns -1 exactly when no position from start on holds a value >= the target. Otherwise it returns the first such position, and everything between start and it is below the target. |
| Tools.FindIndex | saqc/lib/tools.py:15-25 | The while loop returns the first index >= start whose element is >= value, or -1. |
| Tools.FirstIndexResume | lib/tools.py:59-64 | A search started at a position before which every element is below the target finds the same index as a search from 0. So resuming the end scan from the previous end loses nothing. |
| Tools.Wrap64 | lib/tools.py:37 | Reduces an integer into the int64 range and leaves int64 values unchanged. |
| Tools.Range | lib/tools.py:29-37 | valueRange has no result exactly on an empty sequence, where it reads iterable[0]. Otherwise the result is an int64. |
| Tools.ValueRange | saqc/lib/tools.py:29-37 | The min/max loop returns Range: max − min with int64 wrap-around, or the error on empty input. |
| Tools.ExtremesUnique | lib/tools.py:30-36 | Values that occur in the sequence and bound all its entries are its minimum and maximum. |
| Tools.ValueRangeExact | lib/tools.py:29-37 | When no two entries differ by 2^63 or more, the range equals max − min. It is non-negative and bounds every pairwise difference. |
| Tools.ValueRangeWraps | lib/tools.py:37 | int64 wrap-around: the range of [INT64_MIN, x] for 0 <= x < 2^63 comes out negative. |
| Tools.SlidingWindowIndices | lib/tools.py:40-71 | The scanner loop (cursors that only move forward, end search resumed from the previous end) returns exactly Windows: the pairs yielded, or the error raised. |
| Tools.WindowsNonMonotonic | lib/tools.py:46-47 | Any pair of dates that is not strictly increasing raises NonMonotonic before anything is yielded. |
| Tools.WindowBounds | lib/tools.py:58-64 | For every yielded pair: start and end are valid indices, and start date + window size does not pass the last date. end is the smallest index whose date is >= start date + window size. start <= end when window size >= 0, and start < end when it is > 0. |
| Tools.StartsIncrease | lib/tools.py:66-71 | Yielded start indices strictly increase. |
| Tools.StartsWithoutStep | lib/tools.py:68-69 | Without a step (or a zero step), the k-th yielded start is k. |
| Tools.StartsWithStep | lib/tools.py:66-67 | With a step, each start is the smallest index whose date is >= the previous start date + step. |
| Tools.StepStop | lib/tools.py:58-71 | With a step, the first start is 0. After the last pair, the step search returns -1 or the next window would pass the last date. |
| Tools.WindowsOk | lib/tools.py:58-71 | On strictly increasing dates, a positive window size or a positive step makes the scan end without error. |
| Tools.WindowsPastEnd | lib/tools.py:69-71 | With window size <= 0 and no step, the scan always ends by indexing past the last date (IndexOutOfRange). |
| Tools.NothingFits | lib/tools.py:58-61 | The scan yields nothing exactly when the first date + window size passes the last date. |
| Tools.ScanFromPairs | saqc/lib/tools.py:58-64 | Every yielded pair lies at or after the scan's start. Its start date + window size is within the last date, and its end is the minimal index reaching that date. |
| Tools.ScanFromSuccession | saqc/lib/tools.py:66-71 | The first pair starts where the scan starts. Each following start is the next start computed from the previous one. |
| Tools.ScanFromStop | saqc/lib/tools.py:58-61 | The scan stops only when the next start is -1 or its window passes the last date. |
| Tools.ScanFromOk | saqc/lib/tools.py:58-71 | From any start, a positive window size or step makes the scan terminate without error. |
| Tools.ScanFromPastEnd | saqc/lib/tools.py:69-71 | From any start, window size <= 0 without a step ends in IndexOutOfRange. |
| Frames.Minus | funcs/functions.py:73 | np.diff on one pair: NaN when either operand is NaN, otherwise the difference. |
| Frames.SpanExact | core.py:72 | data.loc[start:end] on an increasing index selects exactly the rows whose date lies in [start, end], as one contiguous range. |
| Frames.SliceRows | core.py:78-79 | The window of a table holds rows [lo, hi) of every column. |
| Frames.SpliceConfined | core.py:106-107 | Writing a window back replaces rows [lo, hi) of every column with the chunk and leaves all other rows unchanged. |
| Frames.Table.Assign | core.py:106-107 | .loc assignment: the table's columns become the old columns with the chunk spliced in at lo. |
| Propagation.PeriodToTicks | core.py:20-21 | The tick count is the ceiling of period / freq: the smallest k with k * freq >= period. |
| Propagation.NearestSpec | core.py:26-29 | The trigger an unflagged cell copies is the nearest flagged cell at most n positions before it. There is none exactly when no cell in that range is flagged. |
| Propagation.RoundsClosedForm | core.py:26-29 | Running the offset rounds 1..r one after another gives the closed form Propagated. |
| Propagation.ClippedTargetFlagged | core.py:27 | A target clipped to the last position is already flagged when its round runs, so clipping never writes. Python's negative indexing therefore never comes into play. |
| Propagation.FlaggedPositions | core.py:25 | The trigger list holds exactly the flagged positions, in increasing order, and is fixed before the rounds. |
| Propagation.ApplyRound | core.py:27-29 | One round with offset nn writes each unflagged cell nn after a trigger with the value at nn before it. It advances Propagated(nn − 1) to Propagated(nn). |
| Propagation.FlagNext | core.py:24-30 | The flags array becomes Propagated(old, n). The length is kept, and n <= 0 leaves the flags unchanged. |
| Propagation.NothingToPropagate | core.py:26 | Propagating 0 values changes nothing. |
| Propagation.Untouched | core.py:25-29 | A cell that was flagged, or has no trigger within n before it, keeps its value. |
| Propagation.FlaggedAfter | core.py:25-29 | A cell is flagged afterwards exactly when it was flagged or a trigger lies within n before it. |
| Propagation.TakesNearest | core.py:26-29 | An unflagged cell within n after a trigger, with no trigger in between, takes that trigger's value. |
| Propagation.SingleTrigger | core.py:26-29 | With one trigger at i and i + n within the series, exactly i..i+n end flagged, and i+1..i+n carry the trigger's value. |
| Propagation.FillScenario | test/test_core.py:43-55 | Triggers at 0, 1, 2 with n = 4 leave exactly the indices 0..6 flagged. |
| Propagation.OverwriteScenario | test/test_core.py:58-67 | With 1 at 0::3 and 2 at 2::3, every empty cell becomes 1. |
| Runner.PropagationCount | core.py:95-102 | A given flag_period (a duration string, so truthy even at zero length) replaces flag_values by its ceiling tick count. Otherwise flag_values is used as given. |
| Runner.ZeroPeriodSilences | core.py:95-103 | A zero-length flag_period replaces flag_values by 0 ticks, so nothing propagates whatever flag_values says. |
| Runner.FillColumnSpec | core.py:78-80 | fillna sets the unflagged value exactly on the empty cells of one column. |
| Runner.FillSpec | core.py:78-80 | fillna({varname: no_flag}) fills only the varname column. Every other column is unchanged. |
| Runner.WindowFlagsFillSlice | core.py:78-80 | The flag window handed to a test is the sliced flags with the variable's column filled. |
| Runner.EmptyFlags | core.py:35-36 | Without given flags, the flags have the data's columns and rows, and every cell is empty. |
| Runner.StartFlags | core.py:35-40 | Without flags the run starts from empty flags. Given flags are accepted exactly when their columns match the flagger's layout; otherwise they are an error. |
| Runner.WriteBackConfined | core.py:104-107 | Write-back replaces rows [lo, hi) of data and flags with the test's output and nothing else. Flag propagation happens inside the window. |
| Runner.RowStepSkips | core.py:64-74 | A null test cell, a variable missing from data, or a date window selecting no rows leaves the state unchanged, without error. |
| Runner.RowStepTests | core.py:68-107 | Otherwise the row runs its test on the window [start, end], with line number idx + 1. |
| Runner.TestStepFails | core.py:83-90 | A NameError from the dispatcher becomes UndefinedTest(func, varname, line). Any other failure aborts the run. |
| Runner.TestStepRejects | core.py:84-87 | A test whose returned window does not match the window's shape fails with BadWindow. |
| Runner.TestStepWritesBack | core.py:84-107 | A successful test's window is written back, after propagation. |
| Runner.RunRowsNext | core.py:62 | Rows run in config order; row k runs on the state rows 0..k−1 left. |
| Runner.RunRowsStops | core.py:88-90 | After an error, later rows change nothing: the error is the result. |
| Runner.RunColumnsNext | core.py:56-109 | Test columns are the outer loop. An all-empty column is skipped without calling nextTest; any other column runs all rows, then nextTest. |
| Runner.RunColumnsStops | core.py:56-109 | An error in one column is the result of the whole run. |
| Runner.NextColumn | core.py:109 | nextTest advances the flagger's test counter by one and leaves everything else unchanged. |
| Runner.TestStepConfined | core.py:72-107 | A test changes no data and no flag outside its window. |
| Runner.RowStepConfined | core.py:68-107 | A row changes no data and no flag at dates outside [start, end]. |
| Runner.RunRowsConfined | core.py:62-107 | A test column changes no cell whose date lies outside every row's window. |
| Runner.WindowFlagsSet | core.py:78-80 | Inside the window, the variable's flags are all set, and other columns are copied unchanged. |
| Runner.TestStepMarks | core.py:78-107 | With a test that keeps set flags set and touches only its own column, the variable's flags afterwards are set exactly where they were set or inside the window. Other columns are unchanged. |
| Runner.RowStepMarks | core.py:62-107 | The same property per row, expressed in dates [start, end]. |
| Runner.RunRowsMarks | core.py:62-107 | After a column of such tests, a flag is set exactly where it was set before or inside a window of a row for that variable. |
| Runner.TemporalPartitioning | test/test_core.py:28-40 | From empty flags, one test column leaves each variable's flags set exactly on the dates inside its rows' windows. |
| Runner.RunColumnsTests | core.py:56-109 | The flagger's test counter grows by exactly the number of non-empty test columns. |
| Runner.PrepareFromOrdered | core.py:127 | Dropping rows without a variable name keeps the remaining rows in order. |
| Runner.PrepareFromComplete | core.py:127 | Every row that has a variable name is kept. |
| Runner.PrepareMeta | core.py:113-131 | Keeps exactly the named rows, in order, with their tests. A missing start or end date becomes data.index.max(), for both start and end. |
| Runner.PrepareMetaLastOnly | core.py:122-124 | A row whose start was missing selects at most the last timestamp. |
| Runner.PrepareMetaFixed | core.py:117-127 | The corrected preparation: a missing start becomes data.index.min() and a missing end data.index.max(). The kept rows are as in PrepareMeta. |
| Runner.PrepareMetaFixedCovers | core.py:117-124 | A corrected row without dates covers every timestamp. |
| Runner.RunFlagger.NextTest | core.py:109 | nextTest increments the flagger's position by one. |
| Runner.PropagateColumn | core.py:104 | flagNext on a copy of the variable's flag column returns Propagated. |
| Runner.PropagateWindow | core.py:95-104 | The flag window after the optional propagation equals PropagateChunk. |
| Runner.WriteWindow | core.py:106-107 | The data table and the flags table become their old columns with the chunks spliced in at lo. |
| Runner.ApplyTest | core.py:78-107 | Slicing, dispatch, propagation and .loc write-back on the tables give exactly TestStep's outcome and new state. |
| Runner.ApplyRow | core.py:64-107 | One row on the tables gives exactly RowStep's outcome and new state. |
| Runner.ApplyRowAt | core.py:62-107 | One step of the inner loop extends the RunRows fold by one row, or returns the run's final error. |
| Runner.ApplyColumn | core.py:62-107 | The inner loop over the rows gives exactly RunRows over all rows. |
| Runner.ApplyColumnAt | core.py:56-109 | One non-empty test column, followed by nextTest, extends the RunColumns fold, or returns the run's final error. |
| Runner.Run | core.py:33-110 | The whole runner on tables (empty or checked given flags, both loops, nextTest) gives exactly RunAll: the final data, flags and test counter, or the error. |
| Functions.FlagManual | funcs/functions.py:63-64 | flagManual returns data and flags unchanged. |
| Functions.Trunc | funcs/functions.py:39 | Conversion to integer truncates toward zero. |
| Functions.CastInt64 | funcs/functions.py:36-39 | astype(np.int64) maps NaN to INT64_MIN. An in-range number is truncated toward zero, and every result is an int64. |
| Functions.MaskBelow | funcs/functions.py:37 | A sample below thmin, or a missing one, becomes NaN; all others are kept as they are. |
| Functions.CastValues | funcs/functions.py:36-39 | Each value is masked, then cast to int64. |
| Functions.FiniteInt64 | funcs/functions.py:43 | np.isfinite on the int64 array is true at every position. |
| Functions.SelectAll | funcs/functions.py:47-48 | Boolean selection with an all-true mask keeps the chunk unchanged. |
| Functions.SetRangeSpec | funcs/functions.py:56 | Flagging a window applies setFlag to every position in [start, end), masked ones included, and to nothing else. |
| Functions.ChunkRange | funcs/functions.py:46-55 | The range of a window's retained entries is missing exactly when nothing is retained. Otherwise it is an int64. |
| Functions.Qualifying | funcs/functions.py:53-55 | A window qualifies exactly when its retained dates span at least length and its retained values' range is below eps. |
| Functions.ConstantFromHits | funcs/functions.py:45-56 | After the window loop, each position has setFlag applied once per qualifying window that contains it. |
| Functions.ConstantFromUnflagged | funcs/functions.py:53-56 | When no window qualifies, the flags are unchanged. |
| Functions.WindowsShape | funcs/functions.py:32-45 | A successful scan for flagConstant implies length > 0 and increasing dates, and every window satisfies start < end < len. |
| Functions.FlagRange | funcs/functions.py:56 | The slice assignment loop sets exactly [start, end) of the flag array. |
| Functions.ConstantWindow | funcs/functions.py:46-56 | One window: the flags are set on [start, end) when it qualifies and are unchanged otherwise. |
| Functions.FlagConstant | funcs/functions.py:26-60 | The method's flag array equals FlagConstantSpec: the scan's error, leaving the flags unchanged, or the window fold applied to the flags. |
| Functions.SelectIn | funcs/functions.py:47-48 | A selected entry occurs in the chunk. |
| Functions.SpanBelow | funcs/functions.py:53 | The retained dates of a scanned window span less than length, since its end index is excluded. |
| Functions.FlagConstantNeverFlags | funcs/functions.py:43-56 | As written, flagConstant never changes a flag. |
| Functions.InclusiveWindows | funcs/functions.py:45-48 | The corrected windows include the end index when its date is exactly start + length. |
| Functions.Retained | funcs/functions.py:37-43 | The corrected mask retains exactly the present samples that are not below thmin. |
| Functions.FlagConstantFixed | funcs/functions.py:26-60 | The corrected flagConstant: the mask is taken before the cast, and the windows include their end date. |
| Functions.FixedNeedsEndDate | funcs/functions.py:53 | A corrected window qualifies only when the scan's end date is exactly start + length. |
| Functions.ExactSpan | funcs/functions.py:53 | A fully retained window reaching exactly start + length spans exactly length. |
| Functions.IncreasingSlice | funcs/functions.py:48-53 | On increasing dates, a window's minimum date is its first and its maximum date its last. |
| Functions.NarrowSpread | funcs/functions.py:55 | Values whose pairwise differences are all below eps have a range below eps. |
| Functions.FixedFlagsConstantRun | funcs/functions.py:53-56 | A corrected window of length exactly length, fully retained and with values spread below eps, qualifies. So the corrected function does flag constant runs. |
| Functions.DiffOnceSpec | funcs/functions.py:73-74 | One differencing round keeps the entries before i, sets entry i to NaN, and replaces each later entry by its difference from its predecessor. |
| Functions.Differenced | funcs/functions.py:72-74 | deriv rounds succeed exactly when deriv <= the window's length, and they keep the length. |
| Functions.DifferencedHead | funcs/functions.py:72-74 | After deriv rounds, entries 0..deriv−1 are NaN. |
| Functions.DiffOnceSums | funcs/functions.py:73 | After one round on present samples, each entry is the first plus the sum of the differences up to it. |
| Functions.MadFlagsSpec | funcs/functions.py:75-79 | An entry is an outlier exactly when it lies below the lower or above the upper limit. The limits abstract median ± mad·z/0.6745. |
| Functions.MadSkipsHead | funcs/functions.py:72-79 | The NaN head created by differencing is never an outlier. |
| Functions.WindowMaskSpec | funcs/functions.py:94-95 | After the reset and refill, mask is true exactly at the window's outliers. |
| Functions.Unflagged | funcs/functions.py:84-86 | Samples already flagged are masked to NaN before any statistic. |
| Functions.SliceEnd | funcs/functions.py:92 | A slice whose end lies before its start is empty. |
| Functions.Sliced | funcs/functions.py:91-92 | Each scanned pair becomes the numpy slice [start, end). |
| Functions.MadStepFails | funcs/functions.py:72-74 | A window's differencing raises exactly when deriv exceeds the window's length (data[i] past the end). |
| Functions.MadFromFails | funcs/functions.py:91-96 | The window loop fails exactly when some window is shorter than deriv. |
| Functions.MadFromStops | funcs/functions.py:91-96 | After a failed window, later windows change nothing. |
| Functions.MadStepOutside | funcs/functions.py:92-96 | One window changes neither values nor flags outside [start, end). |
| Functions.MadFromConfined | funcs/functions.py:91-96 | A row covered by no window keeps its value and its flag through the loop. |
| Functions.DiffStep | funcs/functions.py:73-74 | One in-place round on the view: values[lo..hi) becomes DiffOnce of the old view, and nothing else changes. |
| Functions.Differentiate | funcs/functions.py:72-74 | The in-place rounds succeed exactly when deriv <= the window's length. They leave values[lo..hi) Differenced, and rows outside it unchanged. |
| Functions.MadWindow | funcs/functions.py:92-96 | One window, with its rewrite of values, mask and flags, gives exactly MadStep's new state. A failed window leaves the flags unchanged. |
| Functions.SetMask | funcs/functions.py:94-95 | The mask array becomes WindowMask. |
| Functions.FlagMasked | funcs/functions.py:96 | flagcol[mask] = setFlag(flagcol[mask]) sets exactly the masked positions. |
| Functions.MadLoop | funcs/functions.py:91-96 | The loop over the windows gives exactly the MadFrom fold: its final flags and whether a window failed. |
| Functions.FlagMad | funcs/functions.py:67-100 | flagMad's flag array and error equal FlagMadSpec: masking, the one-day-step scan, and the window fold over the shared values buffer. |
| Functions.MadFixedStep | funcs/functions.py:92 | The corrected window differences a copy of the original samples. It fails exactly when the window is shorter than deriv. |
| Functions.MadFixedHits | funcs/functions.py:91-96 | Corrected: each row has setFlag applied once per window in which the row, differenced from the original samples, is an outlier. |
| Functions.FlagMadFixed | funcs/functions.py:67-100 | The corrected flagMad, with every window computed on a copy. |
| Functions.MadStepFixed | funcs/functions.py:92 | On a window whose values still equal the originals, the as-written and corrected windows agree. |
| Functions.MadDisjointAgrees | funcs/functions.py:91-96 | With pairwise disjoint windows, the as-written loop and the corrected one give the same flags and the same failure. |
| Functions.DiffPair | funcs/functions.py:73-74 | Differencing [a, b] once gives [NaN, b − a]. |
| Functions.MadDifferencesPersist | funcs/functions.py:72-74 | As written, on samples [1, 2, 4] with overlapping windows [0,2) and [1,3) and deriv 1, row 2 is flagged. The second window sees the first window's differences. |
| Functions.MadCopyKeepsRow | funcs/functions.py:92 | Corrected: on the same input, row 2 stays unflagged. |
| SaqcCore.CheckInput | saqc/core/core.py:30-54 | No error exactly when the types are right and any given flags are a frame of the data's length. A bad type gives TypeError. ValueError arises exactly for a flags frame of the wrong length. |
| SaqcCore.CheckInputIgnoresFlagsIndex | saqc/core/core.py:50-51 | As written, whether the flags' index is a MultiIndex never changes the outcome. |
| SaqcCore.CheckInputFixed | saqc/core/core.py:50-51 | Corrected: a flags frame with a MultiIndex index raises TypeError. The outcome is otherwise that of CheckInput. |
| SaqcCore.CollectedCounts | saqc/core/core.py:20-26 | A name in data appears once per row naming it, without de-duplication. Any other name appears once if some row names it with assign True, and otherwise not at all. |
| SaqcCore.CollectedNamed | saqc/core/core.py:20-27 | Every collected name comes from a config row. |
| SaqcCore.CollectVariables | saqc/core/core.py:14-27 | The append loop returns the Collected fold over all rows, in row order. |
| SaqcCore.InitFlags | saqc/core/core.py:76-78 | initFlags gives one column per collected name, each with one unflagged cell per data row. |
| SaqcCore.SaqcRowStep | saqc/core/core.py:100-109 | A null test, a variable in neither data nor flags, or an empty date window leaves the state unchanged. |
| SaqcCore.SaqcRun | saqc/core/core.py:63-65 | Invalid input is the run's error, before anything else happens, and a run keeps the data's columns. |
| SaqcCore.SaqcRowsNext | saqc/core/core.py:95 | Rows run in config order, each on the state the previous rows left. |
| SaqcCore.SaqcRowsStops | saqc/core/core.py:113-116 | An evaluation error ends the run: later rows change nothing. |
| SaqcCore.SaqcColumnsStops | saqc/core/core.py:89-119 | An error in one test column is the result of the whole run. |
| SaqcCore.UntestedColumnUnchanged | saqc/core/core.py:91-93 | An all-empty test column changes nothing. |
| SaqcCore.SaqcTestConfined | saqc/core/core.py:107-119 | A test changes no data and no flag outside its window. |
| SaqcCore.SaqcRowConfined | saqc/core/core.py:96-119 | A row changes no data and no flag at dates outside [start, end]. |
| SaqcCore.SaqcRowsConfined | saqc/core/core.py:95-119 | A test column changes no cell whose date lies outside every row's window. |
| SaqcCore.SaqcApplyRow | saqc/core/core.py:96-119 | One row on the data table, with the flagger threaded through, gives exactly SaqcRowStep's outcome. |
| SaqcCore.SaqcApplyColumn | saqc/core/core.py:95-119 | The inner loop gives exactly SaqcRows over all rows. |
| SaqcCore.SaqcRunner | saqc/core/core.py:63-124 | The runner (input check, collectVariables and initFlags or the given flags, both loops) gives exactly SaqcRun: the final data and flags, or the error. |
| SaqcCore.NeverLower | test/flagger/test_dmpflagger.py:48-69 | The set policy under which the test's expectation holds: the result is flagged at least as badly as both the requested flag and the old one, and is one of the two. |
| SaqcCore.SpanAll | saqc/core/core.py:107 | A window from the first to the last timestamp selects every row. |
| SaqcCore.WholeIndexTest | saqc/core/core.py:107-119 | A generic test over the whole index keeps the data and marks the variable's flags. |
| SaqcCore.FlagOrderStart | saqc/core/core.py:76-78 | The scenario's flagger starts with one unflagged column, for the variable. |
| SaqcCore.FlagOrderRun | saqc/core/core.py:76-119 | Under any set policy, the scenario's run ends with the variable's flags marked by the first test, then by the second. |
| SaqcCore.FlagOrder | test/flagger/test_dmpflagger.py:48-69 | test_flagOrder: with a policy that never lowers a flag, every present sample ends BAD where it is above the mean and GOOD elsewhere. |
| SaqcCore.FlagOrderOverwrites | test/flagger/test_dmpflagger.py:48-69 | With an overwriting policy, every present sample ends GOOD, so the test's expectation depends on the flagger. |

## Left out

- I/O and configuration parsing are not modelled: `readData`, `__main__`,
  and `readConfig`, `prepareConfig` and `checkConfig`. The configuration
  is given as rows.
- `_inferFrequency`, and the assertion that a frequency can be inferred,
  are pandas frequency inference. The frequency is a positive parameter
  `freq`.
- Plotting hooks and `saqc/lib/plotting.py` are presentation only.
- `estimateSamplingRate`, `retrieveTrustworthyOriginal`, `inferFrequency`,
  `numpyfy` and `broadcastMany` are not part of the scanner.
- `flagGeneric` and `saqc/funcs/register.py` are not modelled.
- Code defined outside the modelled files is abstract:
  - The flagger classes, `parseFlag`, `flagDispatch` and `evalExpression`
    are defined outside the modelled files and are parameters: the
    `Flagger` value, the `Dispatcher` and the `Evaluator`. `initFromFlags` takes the given flags as they are.
  - `flagger.setFlags` and `flagger.setFlag` are modelled by one `setFlag`
    applied cell by cell.
- The floating-point statistics of `_flagMad` (`nanmedian`, the absolute
  deviation and `z/0.6745`) are abstract. A `limits` function returns the
  lower and upper bound for each window.
- Pandas aligns a test's result to its window by label. The model requires
  a result of the window's shape instead, and any other shape gives
  `BadWindow`.
- Runner.PrepareMeta: the date conversion by `pd.to_datetime` is not
  modelled; dates are integers already. An empty index is excluded, where
  `data.index.max()` would give NaT.
- Runner.StartFlags: the given flags' columns are compared with the data's
  as a set, because tables are maps. `core.py:38` compares the column
  sequences position by position. So the same columns in another order
  raise TypeError in the source but are accepted here. A different number
  of columns makes pandas raise ValueError, where the model reports
  `StructureMismatch`.
- Frames.Value: float64 samples are exact reals, and there is no ±inf.
  So the rounding of `np.diff` and `inf − inf = NaN`
  (`funcs/functions.py:73`) are not modelled.
- Tools.SlidingWindowIndices: `start_date + window_size` and
  `start_date + iter_delta` (`lib/tools.py:59`, `lib/tools.py:67`) are
  int64 sums that can wrap. The scan uses unbounded integers. Only
  `valueRange`'s wrap-around is modelled.
- Tools.Range: `valueRange` is compiled by numba in nopython mode
  (`lib/tools.py:28`), where `iterable[0]` is not bounds-checked. On an
  empty sequence the source reads out of bounds, and the result is
  undefined rather than an error. The model gives no result (`None`)
  there.
- Runner.Run: when a test raises, the model returns the error and does not
  state the partial writes made before it. Python leaves those in the
  mutated tables.
- SaqcCore.SaqcRunner: the same applies. The model also has no separate
  flagger object: `getFlagger` and `setFlagger` are slicing and splicing
  of the flag columns.
- SaqcCore.CollectVariables: when a name is collected twice, the duplicate
  flag columns of `initFlags` collapse into one map key.
- SaqcCore.CollectVariables: `assign is True` is modelled as a boolean. A
  truthy non-boolean value is not included, as in the source.
- Functions.FlagConstant: `thmin=None` is modelled as "no threshold".
  `datacol < None` is taken to select nothing.
- Functions.FlagMad: the `length` and `"1D"` timedeltas are integers
  given by the caller (`window`, `day`).
- Tools.SlidingWindowIndices: a negative step would never advance the
  scan, so the model requires the step to be non-negative.
- Tools.SlidingWindowIndices: the pairs a scan yielded before raising are
  not returned. Callers that get a scan error (`FlagConstant`, `FlagMad`)
  leave the flags as they were. Python keeps the effects of the windows it
  processed before the exception. This only arises with a non-positive
  window size and no step.

## Findings

| source | as written | input that shows it | evidently intended | confidence | as-written member | corrected member |
|---|---|---|---|---|---|---|
| core.py:122-124 | missing start dates are filled with `data.index.max()` | a row with no start date on a 100-row index | fill the start with `data.index.min()` so the row covers the whole range | medium, not executed | Runner.PrepareMetaLastOnly | Runner.PrepareMetaFixedCovers |
| funcs/functions.py:36-56 | the int64 cast makes every mask entry finite, and a scanned window's dates never span `length` because its end index is excluded | any series with a constant run longer than `length` | flag windows of constant, present values spanning `length` | high, not executed | Functions.FlagConstantNeverFlags | Functions.FixedFlagsConstantRun |
| funcs/functions.py:72-74, 91-92 | `_flagMad` differences a view, so overlapping windows see earlier windows' differences | values [1, 2, 4], windows [0,2) and [1,3), deriv 1, limits (−10, 2.5) | each window differences the original samples | high, not executed | Functions.MadDifferencesPersist | Functions.MadCopyKeepsRow |
| saqc/core/core.py:50-51 | after the flags checks, the index of `data` is checked again, so a MultiIndex on the flags passes | a flags frame of the right length with a MultiIndex index | reject a flags MultiIndex with TypeError | low, not executed | SaqcCore.CheckInputIgnoresFlagsIndex | SaqcCore.CheckInputFixed |
