/** The scheduler of core.py: `runner` applies every test column to every
    configuration row, each on the row's time window, and `prepareMeta`
    fills in the configuration's defaults. */
module Runner {
  import opened Wrappers
  import opened Frames
  import opened Propagation
  import Tools

  /** A parsed test cell: the test function's name and the propagation
      parameters `flag_period` (in index ticks) and `flag_values`. */
  datatype Test = Test(func: string, flagPeriod: Option<int>, flagValues: Option<int>)

  /** A configuration row: its index label, the variable, the window dates
      and one (possibly empty) cell per test column. */
  datatype Row = Row(index: nat, varname: Name, start: int, end: int, cells: seq<Option<Test>>)

  /** Every row has a cell in each of the width test columns. */
  predicate WellFormedMeta(width: nat, rows: seq<Row>) {
    forall r :: r in rows ==> |r.cells| == width
  }

  /** What a test function raises: `NameError` for an unknown name, or anything else. */
  datatype TestError = NameError | OtherError

  datatype RunError =
    | StructureMismatch                                 // flags not shaped as the flagger requires
    | UndefinedTest(func: string, varname: Name, line: nat)
    | TestFailed
    | BadWindow                                         // a test returned a window of another shape

  /** `flagDispatch(func_name, dchunk, fchunk, varname, flagger, ...)`: runs the
      named test on a window, knowing the flagger's current test position. */
  type Dispatcher = (Test, Window, Name, nat) -> Result<Window, TestError>

  /** Python truthiness of an optional number. */
  predicate Truthy(o: Option<int>) {
    o.Some? && o.value != 0
  }

  /** The `flag_values` that propagation uses: a given `flag_period` is turned
      into the tick count covering it, which replaces `flag_values`. The period
      is a duration string, which is truthy whenever it is given, even when it
      denotes zero length. */
  function PropagationCount(t: Test, freq: int): (n: Option<int>)
    requires freq > 0
    ensures t.flagPeriod.Some? ==> n.Some? && n.value * freq >= t.flagPeriod.value
    ensures t.flagPeriod.Some? ==> n.Some? && (n.value - 1) * freq < t.flagPeriod.value
    ensures t.flagPeriod.None? ==> n == t.flagValues
  {
    if t.flagPeriod.Some? then Some(PeriodToTicks(t.flagPeriod.value, freq)) else t.flagValues
  }

  /** A zero-length period still replaces `flag_values`, by zero ticks, so
      nothing propagates whatever `flag_values` says. */
  lemma ZeroPeriodSilences(t: Test, freq: int)
    requires freq > 0 && t.flagPeriod == Some(0)
    ensures !Truthy(PropagationCount(t, freq))
  {
    assert PeriodToTicks(0, freq) == 0;
  }

  /** `column.fillna(x)`: every empty cell gets the flag x. */
  function FillColumn(col: seq<Cell>, x: Flag): (r: seq<Cell>)
    ensures |r| == |col|
  {
    if |col| == 0 then [] else [if col[0].None? then Some(x) else col[0]] + FillColumn(col[1..], x)
  }

  /** `fchunk.fillna({varname: flagger.no_flag})`. */
  function Fill(cols: map<Name, seq<Cell>>, v: Name, x: Flag): (r: map<Name, seq<Cell>>)
    ensures r.Keys == cols.Keys
  {
    if v in cols then cols[v := FillColumn(cols[v], x)] else cols
  }

  /** Filling sets exactly the empty cells and keeps the others. */
  lemma {:induction false} FillColumnSpec(col: seq<Cell>, x: Flag)
    ensures forall i :: 0 <= i < |col| ==>
      FillColumn(col, x)[i] == (if col[i].None? then Some(x) else col[i])
  {
    if |col| > 0 {
      FillColumnSpec(col[1..], x);
    }
  }

  /** Filling touches only column v, and there only the empty cells. */
  lemma FillSpec(cols: map<Name, seq<Cell>>, v: Name, x: Flag)
    ensures forall c :: c in cols && c != v ==> Fill(cols, v, x)[c] == cols[c]
    ensures v in cols ==> |Fill(cols, v, x)[v]| == |cols[v]|
    ensures v in cols ==> forall i :: 0 <= i < |cols[v]| ==>
      Fill(cols, v, x)[v][i] == (if cols[v][i].None? then Some(x) else cols[v][i])
  {
    if v in cols {
      FillColumnSpec(cols[v], x);
    }
  }

  /** `flags.loc[start:end].fillna({varname: no_flag})` on a table of n rows. */
  function WindowFlags(flags: map<Name, seq<Cell>>, n: nat, lo: nat, hi: nat, v: Name, x: Flag): (r: map<Name, seq<Cell>>)
    requires lo <= hi <= n && Rectangular(flags, n)
    ensures r.Keys == flags.Keys
  {
    map c | c in flags :: if c == v then FillColumn(flags[c][lo..hi], x) else flags[c][lo..hi]
  }

  /** The window's flags are the slice of the flags, filled in column v. */
  lemma WindowFlagsFillSlice(flags: map<Name, seq<Cell>>, n: nat, lo: nat, hi: nat, v: Name, x: Flag)
    requires lo <= hi <= n && Rectangular(flags, n)
    ensures WindowFlags(flags, n, lo, hi, v, x) == Fill(Slice(flags, lo, hi), v, x)
  {
  }

  /** `flags = flagger.emptyFlags(data)`: one empty flag column per data column. */
  function EmptyFlags(data: map<Name, seq<Value>>, n: nat): (f: map<Name, seq<Cell>>)
    ensures f.Keys == data.Keys && Rectangular(f, n)
    ensures forall c, i :: c in f && 0 <= i < n ==> f[c][i].None?
  {
    map c | c in data :: seq(n, _ => None)
  }

  // ---------------------------------------------------------------------
  // Specification: the run as a left fold, test columns outer, rows inner

  datatype Env = Env(flagger: Flagger, dispatch: Dispatcher, dates: seq<int>, freq: int)

  predicate ValidEnv(env: Env) {
    env.freq > 0
  }

  /** The data columns, the flag columns and the flagger's test position. */
  datatype State = State(data: map<Name, seq<Value>>, flags: map<Name, seq<Cell>>, tests: nat)

  predicate Consistent(st: State, n: nat) {
    Rectangular(st.data, n) && Rectangular(st.flags, n) && st.flags.Keys == st.data.Keys
  }

  /** `fchunk[varname] = flagNext(flagger, fchunk[varname], flag_values)` when
      `flag_values` is truthy. */
  function PropagateChunk(isFlagged: Cell -> bool, freq: int, flags: map<Name, seq<Cell>>, v: Name, t: Test): (r: map<Name, seq<Cell>>)
    requires freq > 0
    ensures r.Keys == flags.Keys
    ensures forall c :: c in flags ==> |r[c]| == |flags[c]|
    ensures forall c :: c in flags && c != v ==> r[c] == flags[c]
  {
    var n := PropagationCount(t, freq);
    if Truthy(n) && v in flags
    then flags[v := Propagated(isFlagged, flags[v], if n.value < 0 then 0 else n.value)]
    else flags
  }

  /** The window a row's test is given: the data rows and the flag rows of
      [lo, hi), the variable's empty flags initialised. */
  function TestWindow(env: Env, st: State, v: Name, lo: nat, hi: nat): (w: Window)
    requires lo <= hi <= |env.dates| && Consistent(st, |env.dates|)
    ensures w.height == hi - lo
    ensures w.data.Keys == st.data.Keys && w.flags.Keys == st.flags.Keys
  {
    Window(hi - lo, Slice(st.data, lo, hi), WindowFlags(st.flags, |env.dates|, lo, hi, v, env.flagger.noFlag))
  }

  /** Writing a test's result window back over the rows [lo, hi): the data
      window as returned, the flag window after propagation. Rows outside the
      window keep their data and their flags. */
  function WriteBack(env: Env, st: State, v: Name, test: Test, lo: nat, hi: nat, out: Window): (r: State)
    requires env.freq > 0 && lo <= hi <= |env.dates| && Consistent(st, |env.dates|)
    requires out.data.Keys == st.data.Keys && out.flags.Keys == st.flags.Keys
    requires Rectangular(out.data, hi - lo) && Rectangular(out.flags, hi - lo)
    ensures Consistent(r, |env.dates|) && r.data.Keys == st.data.Keys && r.tests == st.tests
  {
    var flags := PropagateChunk(env.flagger.isFlagged, env.freq, out.flags, v, test);
    SpliceConfined(st.data, |env.dates|, lo, hi, out.data);
    SpliceConfined(st.flags, |env.dates|, lo, hi, flags);
    State(Splice(st.data, lo, out.data), Splice(st.flags, lo, flags), st.tests)
  }

  /** Write-back is confined to the window: rows outside [lo, hi) keep their
      data and flags, rows inside take the test's data and, in every column
      but the row's variable, the test's flags. */
  lemma WriteBackConfined(env: Env, st: State, v: Name, test: Test, lo: nat, hi: nat, out: Window)
    requires env.freq > 0 && lo <= hi <= |env.dates| && Consistent(st, |env.dates|)
    requires out.data.Keys == st.data.Keys && out.flags.Keys == st.flags.Keys
    requires Rectangular(out.data, hi - lo) && Rectangular(out.flags, hi - lo)
    ensures var r := WriteBack(env, st, v, test, lo, hi, out);
      forall c, i :: c in st.data && 0 <= i < |env.dates| ==>
        && r.data[c][i] == (if lo <= i < hi then out.data[c][i - lo] else st.data[c][i])
        && (c != v ==> r.flags[c][i] == (if lo <= i < hi then out.flags[c][i - lo] else st.flags[c][i]))
        && (!(lo <= i < hi) ==> r.flags[c][i] == st.flags[c][i])
  {
    var flags := PropagateChunk(env.flagger.isFlagged, env.freq, out.flags, v, test);
    SpliceConfined(st.data, |env.dates|, lo, hi, out.data);
    SpliceConfined(st.flags, |env.dates|, lo, hi, flags);
    var r := WriteBack(env, st, v, test, lo, hi, out);
    assert r.data == Splice(st.data, lo, out.data) && r.flags == Splice(st.flags, lo, flags);
    forall c, i | c in st.data && 0 <= i < |env.dates|
      ensures r.data[c][i] == (if lo <= i < hi then out.data[c][i - lo] else st.data[c][i])
      ensures c != v ==> r.flags[c][i] == (if lo <= i < hi then out.flags[c][i - lo] else st.flags[c][i])
      ensures !(lo <= i < hi) ==> r.flags[c][i] == st.flags[c][i]
    {
    }
  }

  /** A test run on the non-empty window [lo, hi) of variable v: dispatch,
      then write back or stop with the error; `line` is the row's line in
      the configuration. */
  function TestStep(env: Env, st: State, v: Name, test: Test, line: nat, lo: nat, hi: nat): (r: Result<State, RunError>)
    requires ValidEnv(env) && Consistent(st, |env.dates|) && lo < hi <= |env.dates|
    ensures r.Ok? ==> Consistent(r.value, |env.dates|) && r.value.data.Keys == st.data.Keys
    ensures r.Ok? ==> r.value.tests == st.tests
  {
    var w := TestWindow(env, st, v, lo, hi);
    match env.dispatch(test, w, v, st.tests)
    case Err(NameError) => Err(UndefinedTest(test.func, v, line))
    case Err(OtherError) => Err(TestFailed)
    case Ok(out) =>
      if Fits(out, w) then Ok(WriteBack(env, st, v, test, lo, hi, out))
      else Err(BadWindow)
  }

  /** One row of one test column (core.py, the body of the inner loop). */
  function RowStep(env: Env, st: State, row: Row, c: nat): (r: Result<State, RunError>)
    requires ValidEnv(env) && Consistent(st, |env.dates|) && c < |row.cells|
    ensures r.Ok? ==> Consistent(r.value, |env.dates|) && r.value.data.Keys == st.data.Keys
    ensures r.Ok? ==> r.value.tests == st.tests
  {
    match row.cells[c]
    case None => Ok(st)
    case Some(test) =>
      if row.varname !in st.data then Ok(st)
      else
        var span := Span(env.dates, row.start, row.end);
        if span.0 == span.1 then Ok(st)
        else TestStep(env, st, row.varname, test, row.index + 1, span.0, span.1)
  }

  /** A row is skipped, with nothing changed, when its cell is empty, when
      its variable is not a data column, or when its window selects no rows. */
  lemma RowStepSkips(env: Env, st: State, row: Row, c: nat)
    requires ValidEnv(env) && Consistent(st, |env.dates|) && c < |row.cells|
    requires row.cells[c].None? || row.varname !in st.data
      || Span(env.dates, row.start, row.end).0 == Span(env.dates, row.start, row.end).1
    ensures RowStep(env, st, row, c) == Ok(st)
  {
  }

  /** Otherwise the row's test runs on the row's window. */
  lemma RowStepTests(env: Env, st: State, row: Row, c: nat, test: Test)
    requires ValidEnv(env) && Consistent(st, |env.dates|) && c < |row.cells|
    requires row.cells[c] == Some(test) && row.varname in st.data
    requires Span(env.dates, row.start, row.end).0 < Span(env.dates, row.start, row.end).1
    ensures RowStep(env, st, row, c) == TestStep(env, st, row.varname, test, row.index + 1,
      Span(env.dates, row.start, row.end).0, Span(env.dates, row.start, row.end).1)
  {
  }

  /** A failing test stops the run: an unknown test name is reported with
      the row's line, anything else as a failure. */
  lemma TestStepFails(env: Env, st: State, v: Name, test: Test, line: nat, lo: nat, hi: nat, e: TestError)
    requires ValidEnv(env) && Consistent(st, |env.dates|) && lo < hi <= |env.dates|
    requires env.dispatch(test, TestWindow(env, st, v, lo, hi), v, st.tests) == Err(e)
    ensures TestStep(env, st, v, test, line, lo, hi) ==
      Err(if e == NameError then UndefinedTest(test.func, v, line) else TestFailed)
  {
  }

  /** A test that hands back a window of another shape stops the run. */
  lemma TestStepRejects(env: Env, st: State, v: Name, test: Test, line: nat, lo: nat, hi: nat, out: Window)
    requires ValidEnv(env) && Consistent(st, |env.dates|) && lo < hi <= |env.dates|
    requires env.dispatch(test, TestWindow(env, st, v, lo, hi), v, st.tests) == Ok(out)
    requires !Fits(out, TestWindow(env, st, v, lo, hi))
    ensures TestStep(env, st, v, test, line, lo, hi) == Err(BadWindow)
  {
  }

  /** A test that succeeds writes its result window back. */
  lemma TestStepWritesBack(env: Env, st: State, v: Name, test: Test, line: nat, lo: nat, hi: nat, out: Window)
    requires ValidEnv(env) && Consistent(st, |env.dates|) && lo < hi <= |env.dates|
    requires env.dispatch(test, TestWindow(env, st, v, lo, hi), v, st.tests) == Ok(out)
    requires Fits(out, TestWindow(env, st, v, lo, hi))
    ensures TestStep(env, st, v, test, line, lo, hi) == Ok(WriteBack(env, st, v, test, lo, hi, out))
  {
  }

  /** Rows 0..k-1 of test column c. */
  function RunRows(env: Env, st: State, rows: seq<Row>, c: nat, k: nat): (r: Result<State, RunError>)
    requires ValidEnv(env) && Consistent(st, |env.dates|) && k <= |rows|
    requires forall row :: row in rows ==> c < |row.cells|
    ensures r.Ok? ==> Consistent(r.value, |env.dates|) && r.value.data.Keys == st.data.Keys
    ensures r.Ok? ==> r.value.tests == st.tests
  {
    if k == 0 then Ok(st)
    else match RunRows(env, st, rows, c, k - 1)
      case Err(e) => Err(e)
      case Ok(s) => RowStep(env, s, rows[k - 1], c)
  }

  /** The rows are run in order: row k runs on the state rows 0..k-1 left. */
  lemma RunRowsNext(env: Env, st: State, rows: seq<Row>, c: nat, k: nat)
    requires ValidEnv(env) && Consistent(st, |env.dates|) && k < |rows|
    requires forall row :: row in rows ==> c < |row.cells|
    requires RunRows(env, st, rows, c, k).Ok?
    ensures rows[k] in rows
    ensures RunRows(env, st, rows, c, k + 1) == RowStep(env, RunRows(env, st, rows, c, k).value, rows[k], c)
  {
  }

  /** An error stops the rows that follow. */
  lemma {:induction false} RunRowsStops(env: Env, st: State, rows: seq<Row>, c: nat, k: nat, m: nat)
    requires ValidEnv(env) && Consistent(st, |env.dates|) && k <= m <= |rows|
    requires forall row :: row in rows ==> c < |row.cells|
    requires RunRows(env, st, rows, c, k).Err?
    ensures RunRows(env, st, rows, c, m) == RunRows(env, st, rows, c, k)
    decreases m - k
  {
    if k < m {
      RunRowsStops(env, st, rows, c, k, m - 1);
    }
  }

  /** `meta[flag_field].dropna().empty`. */
  predicate ColumnEmpty(rows: seq<Row>, c: nat)
    requires forall row :: row in rows ==> c < |row.cells|
  {
    forall row :: row in rows ==> row.cells[c].None?
  }

  /** `flagger.nextTest()` after a test column that ran without error. */
  function NextColumn(r: Result<State, RunError>): (r': Result<State, RunError>)
    ensures r'.Ok? <==> r.Ok?
    ensures r.Ok? ==> r'.value == r.value.(tests := r.value.tests + 1)
    ensures r.Err? ==> r' == r
  {
    match r
    case Err(e) => Err(e)
    case Ok(s) => Ok(s.(tests := s.tests + 1))
  }

  /** Test columns 0..k-1, each followed by `flagger.nextTest()` unless it is empty. */
  function RunColumns(env: Env, st: State, rows: seq<Row>, k: nat): (r: Result<State, RunError>)
    requires ValidEnv(env) && Consistent(st, |env.dates|)
    requires forall row :: row in rows ==> k <= |row.cells|
    ensures r.Ok? ==> Consistent(r.value, |env.dates|) && r.value.data.Keys == st.data.Keys
  {
    if k == 0 then Ok(st)
    else match RunColumns(env, st, rows, k - 1)
      case Err(e) => Err(e)
      case Ok(s) =>
        if ColumnEmpty(rows, k - 1) then Ok(s)
        else NextColumn(RunRows(env, s, rows, k - 1, |rows|))
  }

  /** The test columns are run in order, each on the state the ones before
      it left. */
  lemma RunColumnsNext(env: Env, st: State, rows: seq<Row>, k: nat)
    requires ValidEnv(env) && Consistent(st, |env.dates|)
    requires forall row :: row in rows ==> k < |row.cells|
    requires RunColumns(env, st, rows, k).Ok?
    ensures ColumnEmpty(rows, k) ==> RunColumns(env, st, rows, k + 1) == RunColumns(env, st, rows, k)
    ensures !ColumnEmpty(rows, k) ==>
      RunColumns(env, st, rows, k + 1) == NextColumn(RunRows(env, RunColumns(env, st, rows, k).value, rows, k, |rows|))
  {
  }

  /** An error stops the test columns that follow. */
  lemma {:induction false} RunColumnsStops(env: Env, st: State, rows: seq<Row>, k: nat, m: nat)
    requires ValidEnv(env) && Consistent(st, |env.dates|) && k <= m
    requires forall row :: row in rows ==> m <= |row.cells|
    requires RunColumns(env, st, rows, k).Err?
    ensures RunColumns(env, st, rows, m) == RunColumns(env, st, rows, k)
    decreases m - k
  {
    if k < m {
      RunColumnsStops(env, st, rows, k, m - 1);
    }
  }

  /** The flags a run starts from: fresh empty ones, or the given ones when
      their columns are the data's columns. */
  function StartFlags(data: map<Name, seq<Value>>, n: nat, given: Option<map<Name, seq<Cell>>>): (r: Result<map<Name, seq<Cell>>, RunError>)
    ensures r.Ok? ==> r.value.Keys == data.Keys
    ensures given.None? ==> r == Ok(EmptyFlags(data, n))
    ensures given.Some? ==> (r.Ok? <==> given.value.Keys == data.Keys)
  {
    match given
    case None => Ok(EmptyFlags(data, n))
    case Some(f) => if f.Keys == data.Keys then Ok(f) else Err(StructureMismatch)
  }

  /** The whole run. */
  function RunAll(env: Env, rows: seq<Row>, width: nat, data: map<Name, seq<Value>>,
                  given: Option<map<Name, seq<Cell>>>, tests: nat): Result<State, RunError>
    requires ValidEnv(env) && WellFormedMeta(width, rows)
    requires Rectangular(data, |env.dates|)
    requires given.Some? ==> Rectangular(given.value, |env.dates|)
  {
    match StartFlags(data, |env.dates|, given)
    case Err(e) => Err(e)
    case Ok(f) => RunColumns(env, State(data, f, tests), rows, width)
  }

  // ---------------------------------------------------------------------
  // Properties of the run

  /** Whether some row among rows 0..k-1 names the variable v and has a
      window holding the date d. */
  predicate InWindows(rows: seq<Row>, k: nat, v: Name, d: int)
    requires k <= |rows|
  {
    k > 0 && (InWindows(rows, k - 1, v, d) || (rows[k - 1].varname == v && rows[k - 1].start <= d <= rows[k - 1].end))
  }

  /** Whether some row among rows 0..k-1 has a window holding the date d. */
  predicate InAnyWindow(rows: seq<Row>, k: nat, d: int)
    requires k <= |rows|
  {
    k > 0 && (InAnyWindow(rows, k - 1, d) || rows[k - 1].start <= d <= rows[k - 1].end)
  }

  /** A test changes no data and no flag outside its window [lo, hi). */
  lemma TestStepConfined(env: Env, st: State, v: Name, test: Test, line: nat, lo: nat, hi: nat)
    requires ValidEnv(env) && Consistent(st, |env.dates|) && lo < hi <= |env.dates|
    requires TestStep(env, st, v, test, line, lo, hi).Ok?
    ensures var r := TestStep(env, st, v, test, line, lo, hi).value;
      forall c, i :: c in st.data && 0 <= i < |env.dates| && !(lo <= i < hi) ==>
        r.data[c][i] == st.data[c][i] && r.flags[c][i] == st.flags[c][i]
  {
    var out := env.dispatch(test, TestWindow(env, st, v, lo, hi), v, st.tests).value;
    TestStepWritesBack(env, st, v, test, line, lo, hi, out);
    WriteBackConfined(env, st, v, test, lo, hi, out);
  }

  /** Whatever the test does, a row changes no data and no flag outside its
      own window [start, end]. */
  lemma RowStepConfined(env: Env, st: State, row: Row, c: nat)
    requires ValidEnv(env) && Consistent(st, |env.dates|) && c < |row.cells| && Increasing(env.dates)
    requires RowStep(env, st, row, c).Ok?
    ensures var r := RowStep(env, st, row, c).value;
      forall v, i :: v in st.data && 0 <= i < |env.dates| && !(row.start <= env.dates[i] <= row.end) ==>
        r.data[v][i] == st.data[v][i] && r.flags[v][i] == st.flags[v][i]
  {
    if row.cells[c].Some? && row.varname in st.data {
      var span := Span(env.dates, row.start, row.end);
      SpanExact(env.dates, row.start, row.end);
      if span.0 < span.1 {
        RowStepTests(env, st, row, c, row.cells[c].value);
        TestStepConfined(env, st, row.varname, row.cells[c].value, row.index + 1, span.0, span.1);
      }
    }
  }

  /** A test column changes no data and no flag at a date outside the
      windows of all its rows. */
  lemma {:induction false} RunRowsConfined(env: Env, st: State, rows: seq<Row>, c: nat, k: nat)
    requires ValidEnv(env) && Consistent(st, |env.dates|) && k <= |rows| && Increasing(env.dates)
    requires forall row :: row in rows ==> c < |row.cells|
    requires RunRows(env, st, rows, c, k).Ok?
    ensures var r := RunRows(env, st, rows, c, k).value;
      forall v, i :: v in st.data && 0 <= i < |env.dates| && !InAnyWindow(rows, k, env.dates[i]) ==>
        r.data[v][i] == st.data[v][i] && r.flags[v][i] == st.flags[v][i]
  {
    if k > 0 {
      RunRowsStep(env, st, rows, c, k - 1);
      RunRowsConfined(env, st, rows, c, k - 1);
      RowStepConfined(env, RunRows(env, st, rows, c, k - 1).value, rows[k - 1], c);
    }
  }

  /** Row k runs when the rows before it ran without error. */
  lemma RunRowsStep(env: Env, st: State, rows: seq<Row>, c: nat, k: nat)
    requires ValidEnv(env) && Consistent(st, |env.dates|) && k < |rows|
    requires forall row :: row in rows ==> c < |row.cells|
    requires RunRows(env, st, rows, c, k + 1).Ok?
    ensures RunRows(env, st, rows, c, k).Ok? && rows[k] in rows
    ensures RunRows(env, st, rows, c, k + 1) == RowStep(env, RunRows(env, st, rows, c, k).value, rows[k], c)
  {
  }

  /** What the generic test of the partitioning scenario does to a window of
      variable v: it hands back a window of the same shape that keeps the
      flags of every other column and clears no flag of v. */
  predicate KeepsFlags(out: Window, w: Window, v: Name) {
    && Fits(out, w)
    && (forall c :: c in w.flags && c != v ==> out.flags[c] == w.flags[c])
    && (v in w.flags ==> forall i :: 0 <= i < |w.flags[v]| && i < |out.flags[v]| && w.flags[v][i].Some? ==> out.flags[v][i].Some?)
  }

  /** A dispatcher whose every test succeeds and keeps the flags as above. */
  ghost predicate Tame(d: Dispatcher) {
    forall t, w, v, p :: d(t, w, v, p).Ok? && KeepsFlags(d(t, w, v, p).value, w, v)
  }

  /** In the window handed to a test, column v has no empty flag, and the
      other columns hold the table's flags. */
  lemma WindowFlagsSet(flags: map<Name, seq<Cell>>, n: nat, lo: nat, hi: nat, v: Name, x: Flag)
    requires lo <= hi <= n && Rectangular(flags, n)
    ensures forall c, j :: c in flags && 0 <= j < hi - lo ==>
      if c == v then WindowFlags(flags, n, lo, hi, v, x)[c][j].Some?
      else WindowFlags(flags, n, lo, hi, v, x)[c][j] == flags[c][lo + j]
  {
    var w: map<Name, seq<Cell>> := WindowFlags(flags, n, lo, hi, v, x);
    if v in flags {
      FillColumnSpec(flags[v][lo..hi], x);
    }
    forall c, j | c in flags && 0 <= j < hi - lo
      ensures if c == v then w[c][j].Some? else w[c][j] == flags[c][lo + j]
    {
      if c == v {
        assert w[c] == FillColumn(flags[c][lo..hi], x);
      } else {
        assert w[c] == flags[c][lo..hi];
      }
    }
  }

  /** Under such a test, running on [lo, hi) initialises exactly the empty
      flags of v in the window and leaves every other flag column alone. */
  lemma TestStepMarks(env: Env, st: State, v: Name, test: Test, line: nat, lo: nat, hi: nat)
    requires ValidEnv(env) && Consistent(st, |env.dates|) && lo < hi <= |env.dates|
    requires !Truthy(PropagationCount(test, env.freq)) && v in st.data
    requires var w := TestWindow(env, st, v, lo, hi);
      env.dispatch(test, w, v, st.tests).Ok? && KeepsFlags(env.dispatch(test, w, v, st.tests).value, w, v)
    ensures TestStep(env, st, v, test, line, lo, hi).Ok?
    ensures var r := TestStep(env, st, v, test, line, lo, hi).value;
      && (forall c, i :: c in st.flags && c != v && 0 <= i < |env.dates| ==> r.flags[c][i] == st.flags[c][i])
      && (forall i :: 0 <= i < |env.dates| ==> (r.flags[v][i].Some? <==> st.flags[v][i].Some? || lo <= i < hi))
  {
    var n := |env.dates|;
    var w := TestWindow(env, st, v, lo, hi);
    var out := env.dispatch(test, w, v, st.tests).value;
    TestStepWritesBack(env, st, v, test, line, lo, hi, out);
    var flags: map<Name, seq<Cell>> := WriteBack(env, st, v, test, lo, hi, out).flags;
    assert flags == Splice(st.flags, lo, out.flags);
    SpliceConfined(st.flags, n, lo, hi, out.flags);
    WindowFlagsSet(st.flags, n, lo, hi, v, env.flagger.noFlag);
    var wf: map<Name, seq<Cell>> := WindowFlags(st.flags, n, lo, hi, v, env.flagger.noFlag);
    assert w.flags == wf && v in st.flags;
    forall c, i | c in st.flags && c != v && 0 <= i < n
      ensures flags[c][i] == st.flags[c][i]
    {
      if lo <= i < hi {
        assert out.flags[c] == wf[c];
        assert wf[c][i - lo] == st.flags[c][lo + (i - lo)];
      }
    }
    forall i | 0 <= i < n
      ensures flags[v][i].Some? <==> st.flags[v][i].Some? || lo <= i < hi
    {
      if lo <= i < hi {
        assert wf[v][i - lo].Some?;
        assert |wf[v]| == hi - lo == |out.flags[v]|;
        assert out.flags[v][i - lo].Some?;
      }
    }
  }

  /** The same for a whole row whose cell holds such a test. */
  lemma RowStepMarks(env: Env, st: State, row: Row, c: nat)
    requires ValidEnv(env) && Consistent(st, |env.dates|) && c < |row.cells| && Increasing(env.dates)
    requires Tame(env.dispatch) && row.cells[c].Some? && !Truthy(PropagationCount(row.cells[c].value, env.freq))
    ensures RowStep(env, st, row, c).Ok?
    ensures var r := RowStep(env, st, row, c).value;
      && (forall v, i :: v in st.flags && v != row.varname && 0 <= i < |env.dates| ==> r.flags[v][i] == st.flags[v][i])
      && (row.varname in st.flags ==> forall i :: 0 <= i < |env.dates| ==>
            (r.flags[row.varname][i].Some? <==> st.flags[row.varname][i].Some? || row.start <= env.dates[i] <= row.end))
  {
    var v, test := row.varname, row.cells[c].value;
    if v in st.data {
      var span := Span(env.dates, row.start, row.end);
      SpanExact(env.dates, row.start, row.end);
      if span.0 < span.1 {
        RowStepTests(env, st, row, c, test);
        var w := TestWindow(env, st, v, span.0, span.1);
        assert env.dispatch(test, w, v, st.tests).Ok? && KeepsFlags(env.dispatch(test, w, v, st.tests).value, w, v);
        TestStepMarks(env, st, v, test, row.index + 1, span.0, span.1);
        var r := RowStep(env, st, row, c).value;
        forall i | 0 <= i < |env.dates|
          ensures r.flags[v][i].Some? <==> st.flags[v][i].Some? || row.start <= env.dates[i] <= row.end
        {
          assert span.0 <= i < span.1 <==> row.start <= env.dates[i] <= row.end;
        }
      } else {
        assert RowStep(env, st, row, c) == Ok(st);
      }
    } else {
      assert RowStep(env, st, row, c) == Ok(st);
    }
  }

  /** The flag of variable v at row i is set. */
  predicate FlagSet(flags: map<Name, seq<Cell>>, v: Name, i: int) {
    v in flags && 0 <= i < |flags[v]| && flags[v][i].Some?
  }

  /** Every row holds a test in column c that propagates nothing. */
  predicate PlainColumn(rows: seq<Row>, c: nat, freq: int)
    requires freq > 0 && forall row :: row in rows ==> c < |row.cells|
  {
    forall row :: row in rows ==> row.cells[c].Some? && !Truthy(PropagationCount(row.cells[c].value, freq))
  }

  /** Such a column sets a flag in column v exactly where one was set
      before or where some row of v has its window. */
  lemma {:induction false} RunRowsMarks(env: Env, st: State, rows: seq<Row>, c: nat, k: nat)
    requires ValidEnv(env) && Consistent(st, |env.dates|) && k <= |rows| && Increasing(env.dates)
    requires forall row :: row in rows ==> c < |row.cells|
    requires Tame(env.dispatch) && PlainColumn(rows, c, env.freq)
    ensures RunRows(env, st, rows, c, k).Ok?
    ensures var r := RunRows(env, st, rows, c, k).value;
      forall v, i {:trigger FlagSet(r.flags, v, i)} {:trigger FlagSet(st.flags, v, i)} :: v in st.flags && 0 <= i < |env.dates| ==>
        (FlagSet(r.flags, v, i) <==> FlagSet(st.flags, v, i) || InWindows(rows, k, v, env.dates[i]))
  {
    if k > 0 {
      RunRowsMarks(env, st, rows, c, k - 1);
      var prev := RunRows(env, st, rows, c, k - 1).value;
      var row := rows[k - 1];
      assert row in rows;
      RowStepMarks(env, prev, row, c);
      var r := RowStep(env, prev, row, c).value;
      assert RunRows(env, st, rows, c, k) == Ok(r);
      forall v, i {:trigger FlagSet(r.flags, v, i)} | v in st.flags && 0 <= i < |env.dates|
        ensures FlagSet(r.flags, v, i) <==> FlagSet(st.flags, v, i) || InWindows(rows, k, v, env.dates[i])
      {
        assert v in prev.flags;
        assert FlagSet(prev.flags, v, i) <==> FlagSet(st.flags, v, i) || InWindows(rows, k - 1, v, env.dates[i]);
        if v == row.varname {
          assert r.flags[v][i].Some? <==> prev.flags[v][i].Some? || row.start <= env.dates[i] <= row.end;
        } else {
          assert r.flags[v][i] == prev.flags[v][i];
        }
      }
    }
  }

  /** The run of test_temporalPartitioning: fresh flags, one test column in
      which every row holds a test of the kind above. After the run a flag
      of variable v is set exactly at the dates some row of v covers. */
  lemma TemporalPartitioning(env: Env, rows: seq<Row>, data: map<Name, seq<Value>>, tests: nat)
    requires ValidEnv(env) && Increasing(env.dates) && WellFormedMeta(1, rows)
    requires Rectangular(data, |env.dates|)
    requires Tame(env.dispatch) && PlainColumn(rows, 0, env.freq)
    ensures RunAll(env, rows, 1, data, None, tests).Ok?
    ensures var r := RunAll(env, rows, 1, data, None, tests).value;
      forall v, i {:trigger FlagSet(r.flags, v, i)} :: v in data && 0 <= i < |env.dates| ==>
        (FlagSet(r.flags, v, i) <==> InWindows(rows, |rows|, v, env.dates[i]))
  {
    var st := State(data, EmptyFlags(data, |env.dates|), tests);
    assert RunAll(env, rows, 1, data, None, tests) == RunColumns(env, st, rows, 1);
    RunRowsMarks(env, st, rows, 0, |rows|);
    RunColumnsNext(env, st, rows, 0);
    if rows != [] {
      assert !ColumnEmpty(rows, 0) by { assert rows[0] in rows; }
    }
  }

  /** When no two rows name the same variable, the dates covered for the
      variable of row j are exactly those of row j's window. */
  lemma {:induction false} InWindowsOnly(rows: seq<Row>, k: nat, j: nat, d: int)
    requires j < k <= |rows|
    requires forall a, b :: 0 <= a < b < |rows| ==> rows[a].varname != rows[b].varname
    ensures InWindows(rows, k, rows[j].varname, d) <==> rows[j].start <= d <= rows[j].end
  {
    if j < k - 1 {
      InWindowsOnly(rows, k - 1, j, d);
    } else {
      InWindowsAbsent(rows, j, rows[j].varname, d);
    }
  }

  /** A variable named by none of rows 0..k-1 has no window among them. */
  lemma {:induction false} InWindowsAbsent(rows: seq<Row>, k: nat, v: Name, d: int)
    requires k <= |rows|
    requires forall a :: 0 <= a < k ==> rows[a].varname != v
    ensures !InWindows(rows, k, v, d)
  {
    if k > 0 {
      InWindowsAbsent(rows, k - 1, v, d);
    }
  }

  /** The number of test columns among 0..k-1 that hold some test. */
  function NonEmptyColumns(rows: seq<Row>, k: nat): (n: nat)
    requires forall row :: row in rows ==> k <= |row.cells|
    ensures n <= k
  {
    if k == 0 then 0 else NonEmptyColumns(rows, k - 1) + (if ColumnEmpty(rows, k - 1) then 0 else 1)
  }

  /** `flagger.nextTest()` is called exactly once per test column that
      holds a test, and never for an empty one. */
  lemma {:induction false} RunColumnsTests(env: Env, st: State, rows: seq<Row>, k: nat)
    requires ValidEnv(env) && Consistent(st, |env.dates|)
    requires forall row :: row in rows ==> k <= |row.cells|
    requires RunColumns(env, st, rows, k).Ok?
    ensures RunColumns(env, st, rows, k).value.tests == st.tests + NonEmptyColumns(rows, k)
  {
    if k > 0 {
      RunColumnsTests(env, st, rows, k - 1);
    }
  }

  // ---------------------------------------------------------------------
  // prepareMeta

  /** A configuration row as read: the variable, the start and the end date
      may each be missing (a missing date column reads as all missing). */
  datatype RawRow = RawRow(varname: Option<Name>, start: Option<int>, end: Option<int>, cells: seq<Option<Test>>)

  /** The rows from raw row i on: missing start and end dates take the given
      defaults, rows without a variable are dropped, and each kept row keeps
      its label (its position in the raw configuration). */
  function PrepareFrom(raw: seq<RawRow>, startFill: int, endFill: int, i: nat): (rows: seq<Row>)
    requires i <= |raw|
    ensures forall k :: 0 <= k < |rows| ==>
      && i <= rows[k].index < |raw|
      && raw[rows[k].index].varname == Some(rows[k].varname)
      && rows[k].start == raw[rows[k].index].start.GetOr(startFill)
      && rows[k].end == raw[rows[k].index].end.GetOr(endFill)
      && rows[k].cells == raw[rows[k].index].cells
    decreases |raw| - i
  {
    if i == |raw| then []
    else
      var r := raw[i];
      var rest := PrepareFrom(raw, startFill, endFill, i + 1);
      if r.varname.None? then rest
      else [Row(i, r.varname.value, r.start.GetOr(startFill), r.end.GetOr(endFill), r.cells)] + rest
  }

  /** The rows' labels strictly increase. */
  predicate LabelsIncrease(rows: seq<Row>) {
    forall k, l :: 0 <= k < l < |rows| ==> rows[k].index < rows[l].index
  }

  /** The kept rows keep the order of the configuration. */
  lemma {:induction false} PrepareFromOrdered(raw: seq<RawRow>, startFill: int, endFill: int, i: nat)
    requires i <= |raw|
    ensures LabelsIncrease(PrepareFrom(raw, startFill, endFill, i))
    decreases |raw| - i
  {
    if i < |raw| {
      PrepareFromOrdered(raw, startFill, endFill, i + 1);
      var rest := PrepareFrom(raw, startFill, endFill, i + 1);
      var rows := PrepareFrom(raw, startFill, endFill, i);
      if raw[i].varname.Some? {
        forall k, l | 0 <= k < l < |rows|
          ensures rows[k].index < rows[l].index
        {
          assert rows[l] == rest[l - 1];
          if k > 0 {
            assert rows[k] == rest[k - 1];
          }
        }
      }
    }
  }

  /** Some row carries the label j. */
  predicate HasLabel(rows: seq<Row>, j: nat) {
    exists k :: 0 <= k < |rows| && rows[k].index == j
  }

  /** Every named raw row is kept. */
  lemma {:induction false} PrepareFromComplete(raw: seq<RawRow>, startFill: int, endFill: int, i: nat)
    requires i <= |raw|
    ensures forall j :: i <= j < |raw| && raw[j].varname.Some? ==> HasLabel(PrepareFrom(raw, startFill, endFill, i), j)
    decreases |raw| - i
  {
    if i < |raw| {
      PrepareFromComplete(raw, startFill, endFill, i + 1);
      var rest := PrepareFrom(raw, startFill, endFill, i + 1);
      var rows := PrepareFrom(raw, startFill, endFill, i);
      forall j | i <= j < |raw| && raw[j].varname.Some?
        ensures HasLabel(rows, j)
      {
        if j == i {
          assert rows[0].index == j;
        } else {
          assert HasLabel(rest, j);
          var k :| 0 <= k < |rest| && rest[k].index == j;
          if raw[i].varname.Some? {
            assert rows[k + 1].index == j;
          } else {
            assert rows[k].index == j;
          }
        }
      }
    }
  }

  /** `prepareMeta(meta, data)` as written: both missing start and missing
      end dates become the data's last timestamp `data.index.max()`. */
  function PrepareMeta(raw: seq<RawRow>, dates: seq<int>): (rows: seq<Row>)
    requires |dates| > 0
    ensures forall k :: 0 <= k < |rows| ==> rows[k].index < |raw| && raw[rows[k].index].varname == Some(rows[k].varname)
    ensures forall k :: 0 <= k < |rows| ==>
      rows[k].start == raw[rows[k].index].start.GetOr(Tools.SeqMax(dates))
      && rows[k].end == raw[rows[k].index].end.GetOr(Tools.SeqMax(dates))
    ensures LabelsIncrease(rows)
    ensures forall j :: 0 <= j < |raw| && raw[j].varname.Some? ==> HasLabel(rows, j)
  {
    PrepareFromOrdered(raw, Tools.SeqMax(dates), Tools.SeqMax(dates), 0);
    PrepareFromComplete(raw, Tools.SeqMax(dates), Tools.SeqMax(dates), 0);
    PrepareFrom(raw, Tools.SeqMax(dates), Tools.SeqMax(dates), 0)
  }

  /** The defaults the surrounding comment asks for, "the available date
      range": a missing start becomes the first timestamp, a missing end the
      last one. */
  function PrepareMetaFixed(raw: seq<RawRow>, dates: seq<int>): (rows: seq<Row>)
    requires |dates| > 0
    ensures forall k :: 0 <= k < |rows| ==> rows[k].index < |raw| && raw[rows[k].index].varname == Some(rows[k].varname)
    ensures forall k :: 0 <= k < |rows| ==>
      rows[k].start == raw[rows[k].index].start.GetOr(Tools.SeqMin(dates))
      && rows[k].end == raw[rows[k].index].end.GetOr(Tools.SeqMax(dates))
    ensures LabelsIncrease(rows)
    ensures forall j :: 0 <= j < |raw| && raw[j].varname.Some? ==> HasLabel(rows, j)
  {
    PrepareFromOrdered(raw, Tools.SeqMin(dates), Tools.SeqMax(dates), 0);
    PrepareFromComplete(raw, Tools.SeqMin(dates), Tools.SeqMax(dates), 0);
    PrepareFrom(raw, Tools.SeqMin(dates), Tools.SeqMax(dates), 0)
  }

  /** As written, a row without a start date tests at most the last sample:
      its window [index.max(), end] holds no other timestamp. */
  lemma PrepareMetaLastOnly(raw: seq<RawRow>, dates: seq<int>, k: nat)
    requires |dates| > 0 && Increasing(dates)
    requires k < |PrepareMeta(raw, dates)|
    requires raw[PrepareMeta(raw, dates)[k].index].start.None?
    ensures var row := PrepareMeta(raw, dates)[k];
      forall i :: 0 <= i < |dates| && row.start <= dates[i] <= row.end ==> i == |dates| - 1
  {
    var m := Tools.SeqMax(dates);
    assert m == dates[|dates| - 1] by {
      assert dates[|dates| - 1] <= m;
    }
  }

  /** With the intended defaults, a row without dates tests every sample. */
  lemma PrepareMetaFixedCovers(raw: seq<RawRow>, dates: seq<int>, k: nat)
    requires |dates| > 0
    requires k < |PrepareMetaFixed(raw, dates)|
    requires raw[PrepareMetaFixed(raw, dates)[k].index].start.None?
    requires raw[PrepareMetaFixed(raw, dates)[k].index].end.None?
    ensures var row := PrepareMetaFixed(raw, dates)[k];
      forall i :: 0 <= i < |dates| ==> row.start <= dates[i] <= row.end
  {
  }

  // ---------------------------------------------------------------------
  // The imperative runner

  /** The result of a step that reports an error or leaves a new state. */
  function StepResult(err: Option<RunError>, st: State): (r: Result<State, RunError>)
    ensures r.Ok? <==> err.None?
  {
    if err.None? then Ok(st) else Err(err.value)
  }

  /** The flagger object of a run; `nextTest` advances its test position. */
  class RunFlagger {
    const flagger: Flagger
    var position: nat

    constructor(flagger: Flagger)
      ensures this.flagger == flagger && position == 0
    {
      this.flagger := flagger;
      position := 0;
    }

    method NextTest()
      modifies this
      ensures position == old(position) + 1
    {
      position := position + 1;
    }
  }

  /** `flagNext` on a copy of one flag column. */
  method PropagateColumn(isFlagged: Cell -> bool, col: seq<Cell>, n: int) returns (res: seq<Cell>)
    ensures res == Propagated(isFlagged, col, if n < 0 then 0 else n)
  {
    var a := new Cell[|col|](j requires 0 <= j < |col| => col[j]);
    assert a[..] == col;
    FlagNext(isFlagged, a, n);
    res := a[..];
  }

  /** `fchunk[varname] = flagNext(...)` on the flags a test returned. */
  method PropagateWindow(isFlagged: Cell -> bool, freq: int, flags: map<Name, seq<Cell>>, v: Name, t: Test)
    returns (r: map<Name, seq<Cell>>)
    requires freq > 0
    ensures r == PropagateChunk(isFlagged, freq, flags, v, t)
  {
    r := flags;
    var n := PropagationCount(t, freq);
    if Truthy(n) && v in flags {
      var col := PropagateColumn(isFlagged, flags[v], n.value);
      r := flags[v := col];
    }
  }

  /** `data.loc[start:end] = dchunk` and `flags.loc[start:end] = fchunk`. */
  method WriteWindow(data: Table<Value>, ft: Table<Cell>, lo: nat, hi: nat,
                     dchunk: map<Name, seq<Value>>, fchunk: map<Name, seq<Cell>>)
    requires data.Valid() && lo <= hi <= data.height
    requires dchunk.Keys == data.columns.Keys && Rectangular(dchunk, hi - lo)
    requires ft.Valid() && lo <= hi <= ft.height
    requires fchunk.Keys == ft.columns.Keys && Rectangular(fchunk, hi - lo)
    modifies data, ft
    ensures data.Valid() && ft.Valid()
    ensures data.columns.Keys == old(data.columns).Keys && ft.columns.Keys == old(ft.columns).Keys
    ensures data.columns == Splice(old(data.columns), lo, dchunk)
    ensures ft.columns == Splice(old(ft.columns), lo, fchunk)
  {
    data.Assign(lo, hi, dchunk);
    ft.Assign(lo, hi, fchunk);
  }

  /** The test of one row on its non-empty window [lo, hi): slice,
      initialise, dispatch, propagate and write back. */
  method ApplyTest(v: Name, test: Test, line: nat, lo: nat, hi: nat, flagger: Flagger, position: nat,
                   dispatch: Dispatcher, dates: seq<int>, freq: int, data: Table<Value>, ft: Table<Cell>)
    returns (err: Option<RunError>)
    requires freq > 0 && lo < hi <= |dates|
    requires data.Valid() && data.height == |dates| && ft.Valid() && ft.height == |dates|
    requires ft.columns.Keys == data.columns.Keys
    modifies data, ft
    ensures data.Valid() && ft.Valid()
    ensures data.columns.Keys == old(data.columns).Keys && ft.columns.Keys == old(ft.columns).Keys
    ensures TestStep(Env(flagger, dispatch, dates, freq), State(old(data.columns), old(ft.columns), position), v, test, line, lo, hi)
      == StepResult(err, State(data.columns, ft.columns, position))
  {
    ghost var env := Env(flagger, dispatch, dates, freq);
    ghost var st := State(data.columns, ft.columns, position);
    var w := Window(hi - lo, data.Rows(lo, hi), Fill(ft.Rows(lo, hi), v, flagger.noFlag));
    WindowFlagsFillSlice(ft.columns, ft.height, lo, hi, v, flagger.noFlag);
    assert w == TestWindow(env, st, v, lo, hi);
    var res := dispatch(test, w, v, position);
    if res.Err? {
      TestStepFails(env, st, v, test, line, lo, hi, res.error);
      if res.error == NameError {
        return Some(UndefinedTest(test.func, v, line));
      }
      return Some(TestFailed);
    }
    var out := res.value;
    if !Fits(out, w) {
      TestStepRejects(env, st, v, test, line, lo, hi, out);
      return Some(BadWindow);
    }
    TestStepWritesBack(env, st, v, test, line, lo, hi, out);
    var fchunk := PropagateWindow(flagger.isFlagged, freq, out.flags, v, test);
    assert Rectangular(fchunk, hi - lo);
    WriteWindow(data, ft, lo, hi, out.data, fchunk);
    return None;
  }

  /** One row of test column c: the skips, then the row's test. */
  method ApplyRow(row: Row, c: nat, flagger: Flagger, position: nat, dispatch: Dispatcher, dates: seq<int>, freq: int,
                  data: Table<Value>, ft: Table<Cell>) returns (err: Option<RunError>)
    requires c < |row.cells|
    requires freq > 0
    requires data.Valid() && data.height == |dates| && ft.Valid() && ft.height == |dates|
    requires ft.columns.Keys == data.columns.Keys
    modifies data, ft
    ensures data.Valid() && ft.Valid()
    ensures data.columns.Keys == old(data.columns).Keys && ft.columns.Keys == old(ft.columns).Keys
    ensures RowStep(Env(flagger, dispatch, dates, freq), State(old(data.columns), old(ft.columns), position), row, c)
      == StepResult(err, State(data.columns, ft.columns, position))
  {
    ghost var env := Env(flagger, dispatch, dates, freq);
    ghost var st := State(data.columns, ft.columns, position);
    var cell := row.cells[c];
    if cell.None? || row.varname !in data.columns {
      RowStepSkips(env, st, row, c);
      return None;
    }
    var lo := Span(dates, row.start, row.end).0;
    var hi := Span(dates, row.start, row.end).1;
    if lo == hi {
      RowStepSkips(env, st, row, c);
      return None;
    }
    RowStepTests(env, st, row, c, cell.value);
    err := ApplyTest(row.varname, cell.value, row.index + 1, lo, hi, flagger, position, dispatch, dates, freq, data, ft);
  }

  /** Row i of test column c, continuing the fold over the rows before it. */
  method ApplyRowAt(rows: seq<Row>, c: nat, i: nat, flagger: Flagger, position: nat, dispatch: Dispatcher,
                    dates: seq<int>, freq: int, data: Table<Value>, ft: Table<Cell>, ghost s0: State)
    returns (err: Option<RunError>)
    requires forall row :: row in rows ==> c < |row.cells|
    requires freq > 0 && i < |rows| && Consistent(s0, |dates|)
    requires data.Valid() && data.height == |dates| && ft.Valid() && ft.height == |dates|
    requires ft.columns.Keys == data.columns.Keys
    requires RunRows(Env(flagger, dispatch, dates, freq), s0, rows, c, i) == Ok(State(data.columns, ft.columns, position))
    modifies data, ft
    ensures data.Valid() && ft.Valid() && ft.columns.Keys == data.columns.Keys
    ensures err.None? ==>
      RunRows(Env(flagger, dispatch, dates, freq), s0, rows, c, i + 1) == Ok(State(data.columns, ft.columns, position))
    ensures err.Some? ==> RunRows(Env(flagger, dispatch, dates, freq), s0, rows, c, |rows|) == Err(err.value)
  {
    ghost var env := Env(flagger, dispatch, dates, freq);
    RunRowsNext(env, s0, rows, c, i);
    err := ApplyRow(rows[i], c, flagger, position, dispatch, dates, freq, data, ft);
    if err.Some? {
      RunRowsStops(env, s0, rows, c, i + 1, |rows|);
    }
  }

  /** The inner loop over the rows for one non-empty test column. */
  method ApplyColumn(rows: seq<Row>, c: nat, flagger: Flagger, position: nat, dispatch: Dispatcher, dates: seq<int>, freq: int,
                     data: Table<Value>, ft: Table<Cell>) returns (err: Option<RunError>)
    requires forall row :: row in rows ==> c < |row.cells|
    requires freq > 0
    requires data.Valid() && data.height == |dates| && ft.Valid() && ft.height == |dates|
    requires ft.columns.Keys == data.columns.Keys
    modifies data, ft
    ensures data.Valid() && ft.Valid() && ft.columns.Keys == data.columns.Keys
    ensures RunRows(Env(flagger, dispatch, dates, freq), State(old(data.columns), old(ft.columns), position), rows, c, |rows|)
      == StepResult(err, State(data.columns, ft.columns, position))
  {
    ghost var env := Env(flagger, dispatch, dates, freq);
    ghost var s0 := State(data.columns, ft.columns, position);
    var i := 0;
    while i < |rows|
      invariant 0 <= i <= |rows|
      invariant data.Valid() && ft.Valid() && ft.columns.Keys == data.columns.Keys
      invariant RunRows(env, s0, rows, c, i) == Ok(State(data.columns, ft.columns, position))
    {
      err := ApplyRowAt(rows, c, i, flagger, position, dispatch, dates, freq, data, ft, s0);
      if err.Some? {
        return;
      }
      i := i + 1;
    }
    return None;
  }

  /** Non-empty test column c, continuing the fold over the columns before
      it, then `flagger.nextTest()`. */
  method ApplyColumnAt(rows: seq<Row>, width: nat, c: nat, fl: RunFlagger, dispatch: Dispatcher, dates: seq<int>,
                       freq: int, data: Table<Value>, ft: Table<Cell>, ghost init: State) returns (err: Option<RunError>)
    requires WellFormedMeta(width, rows) && c < width && !ColumnEmpty(rows, c)
    requires freq > 0 && Consistent(init, |dates|)
    requires data.Valid() && data.height == |dates| && ft.Valid() && ft.height == |dates|
    requires ft.columns.Keys == data.columns.Keys
    requires RunColumns(Env(fl.flagger, dispatch, dates, freq), init, rows, c) == Ok(State(data.columns, ft.columns, fl.position))
    modifies data, ft, fl
    ensures data.Valid() && ft.Valid() && ft.columns.Keys == data.columns.Keys
    ensures err.None? ==>
      RunColumns(Env(fl.flagger, dispatch, dates, freq), init, rows, c + 1) == Ok(State(data.columns, ft.columns, fl.position))
    ensures err.Some? ==> RunColumns(Env(fl.flagger, dispatch, dates, freq), init, rows, width) == Err(err.value)
  {
    ghost var env := Env(fl.flagger, dispatch, dates, freq);
    RunColumnsNext(env, init, rows, c);
    err := ApplyColumn(rows, c, fl.flagger, fl.position, dispatch, dates, freq, data, ft);
    if err.Some? {
      RunColumnsStops(env, init, rows, c + 1, width);
      return;
    }
    fl.NextTest();
  }

  /** `runner(meta, flagger, data, flags)`: data is updated in place; the
      flags are the given table, updated in place, or a fresh one. */
  method Run(rows: seq<Row>, width: nat, fl: RunFlagger, dispatch: Dispatcher, dates: seq<int>, freq: int,
             data: Table<Value>, flags: Option<Table<Cell>>) returns (r: Result<Table<Cell>, RunError>)
    requires WellFormedMeta(width, rows)
    requires freq > 0
    requires data.Valid() && data.height == |dates|
    requires flags.Some? ==> flags.value.Valid() && flags.value.height == |dates|
    modifies data, fl, if flags.Some? then {flags.value} else {}
    ensures var spec := RunAll(Env(fl.flagger, dispatch, dates, freq), rows, width, old(data.columns),
                               if flags.Some? then Some(old(flags.value.columns)) else None, old(fl.position));
      && (r.Ok? ==> spec == Ok(State(data.columns, r.value.columns, fl.position)))
      && (r.Err? ==> spec == Err(r.error))
    ensures r.Ok? && flags.Some? ==> r.value == flags.value
    ensures r.Ok? && flags.None? ==> fresh(r.value)
  {
    ghost var env := Env(fl.flagger, dispatch, dates, freq);
    ghost var given := if flags.Some? then Some(flags.value.columns) else None;
    var ft: Table<Cell>;
    if flags.None? {
      ft := new Table(EmptyFlags(data.columns, data.height), data.height);
    } else if flags.value.columns.Keys != data.columns.Keys {
      return Err(StructureMismatch);
    } else {
      ft := flags.value;
    }
    ghost var init := State(data.columns, ft.columns, fl.position);
    assert StartFlags(data.columns, |dates|, given) == Ok(ft.columns);
    var c := 0;
    while c < width
      invariant 0 <= c <= width
      invariant data.Valid() && ft.Valid() && ft.height == |dates| && ft.columns.Keys == data.columns.Keys
      invariant flags.Some? ==> ft == flags.value
      invariant flags.None? ==> fresh(ft)
      invariant RunColumns(env, init, rows, c) == Ok(State(data.columns, ft.columns, fl.position))
    {
      if ColumnEmpty(rows, c) {
        RunColumnsNext(env, init, rows, c);
        c := c + 1;
        continue;
      }
      var err := ApplyColumnAt(rows, width, c, fl, dispatch, dates, freq, data, ft, init);
      if err.Some? {
        return Err(err.value);
      }
      c := c + 1;
    }
    r := Ok(ft);
  }
}
