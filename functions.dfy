/** The windowed tests of funcs/functions.py on one variable: `flagManual`,
    `flagConstant` and `flagMad`. A test reads the data column (a sequence it
    never writes) and updates the variable's flag column, an array, in place. */
module Functions {
  import opened Wrappers
  import opened Frames
  import opened Tools

  /** `flagManual(data, flags, ...)` hands both frames back untouched. */
  function FlagManual(data: map<Name, seq<Value>>, flags: map<Name, seq<Cell>>): (r: (map<Name, seq<Value>>, map<Name, seq<Cell>>))
    ensures r.0 == data && r.1 == flags
  {
    (data, flags)
  }

  // ---------------------------------------------------------------------
  // Shared pieces: casting, boolean selection, flagging a range of rows

  const Int64Max: int := Int64Min + Int64Modulus - 1

  /** Truncation toward zero, what a float-to-integer cast does. */
  function Trunc(x: real): (r: int)
    ensures 0.0 <= x ==> r as real <= x < r as real + 1.0
    ensures x < 0.0 ==> r as real - 1.0 < x <= r as real
  {
    if x >= 0.0 then x.Floor else -((-x).Floor)
  }

  /** `.astype(np.int64)` of one float sample: truncation toward zero; a
      missing sample or one outside int64's range becomes int64's minimum,
      the value the x86 conversion produces. */
  function CastInt64(v: Value): (r: int)
    ensures Int64Min <= r <= Int64Max
    ensures v.NaN? ==> r == Int64Min
    ensures v.Num? && Int64Min <= Trunc(v.x) <= Int64Max ==> r == Trunc(v.x)
  {
    if v.Num? && Int64Min <= Trunc(v.x) <= Int64Max then Trunc(v.x) else Int64Min
  }

  /** `datacol.mask((datacol < thmin) | datacol.isnull())` on one sample: a
      sample below the threshold becomes missing. */
  function MaskBelow(v: Value, thmin: Option<real>): (r: Value)
    ensures r.Num? <==> v.Num? && !(thmin.Some? && v.x < thmin.value)
    ensures r.Num? ==> r == v
  {
    if v.Num? && thmin.Some? && v.x < thmin.value then NaN else v
  }

  /** `xs[keep]`: the elements whose mask entry holds, in order. */
  function Select(xs: seq<int>, keep: seq<bool>): (r: seq<int>)
    requires |keep| == |xs|
    ensures |r| <= |xs|
  {
    if |xs| == 0 then []
    else (if keep[0] then [xs[0]] else []) + Select(xs[1..], keep[1..])
  }

  /** Selecting with a mask that holds everywhere keeps everything. */
  lemma {:induction false} SelectAll(xs: seq<int>, keep: seq<bool>)
    requires |keep| == |xs| && forall j :: 0 <= j < |keep| ==> keep[j]
    ensures Select(xs, keep) == xs
  {
    if |xs| > 0 {
      SelectAll(xs[1..], keep[1..]);
    }
  }

  /** `flagcol[start:end] = flagger.setFlags(flagcol[start:end])`. */
  function SetRange(setFlag: Cell -> Cell, flags: seq<Cell>, s: nat, e: nat): (r: seq<Cell>)
    requires s <= e <= |flags|
    ensures |r| == |flags|
  {
    flags[..s] + seq(e - s, j requires 0 <= j < e - s => setFlag(flags[s + j])) + flags[e..]
  }

  /** Exactly the rows [s, e) get `setFlag` applied. */
  lemma SetRangeSpec(setFlag: Cell -> Cell, flags: seq<Cell>, s: nat, e: nat)
    requires s <= e <= |flags|
    ensures forall j :: 0 <= j < |flags| ==>
      SetRange(setFlag, flags, s, e)[j] == if s <= j < e then setFlag(flags[j]) else flags[j]
  {
    var r := SetRange(setFlag, flags, s, e);
    forall j | 0 <= j < |flags|
      ensures r[j] == if s <= j < e then setFlag(flags[j]) else flags[j]
    {
      if j < s {
        assert r[j] == flags[..s][j];
      } else if j < e {
        assert r[j] == seq(e - s, i requires 0 <= i < e - s => setFlag(flags[s + i]))[j - s];
      } else {
        assert r[j] == flags[e..][j - e];
      }
    }
  }

  /** `setFlag` applied m times. */
  function Iterate(setFlag: Cell -> Cell, m: nat, c: Cell): Cell {
    if m == 0 then c else setFlag(Iterate(setFlag, m - 1, c))
  }

  /** Windows [s, e) that lie inside an index of n rows. */
  predicate ValidWindows(ws: seq<(nat, nat)>, n: nat) {
    forall k :: 0 <= k < |ws| ==> ws[k].0 <= ws[k].1 <= n
  }

  // ---------------------------------------------------------------------
  // flagConstant

  /** `valueRange(xs[s:e][keep[s:e]])`; None when the mask keeps nothing there. */
  function ChunkRange(xs: seq<int>, keep: seq<bool>, s: nat, e: nat): (r: Option<int>)
    requires s <= e <= |xs| && |keep| == |xs|
    ensures r.None? <==> Select(xs[s..e], keep[s..e]) == []
    ensures r.Some? ==> Int64Min <= r.value <= Int64Max
  {
    Range(Select(xs[s..e], keep[s..e]))
  }

  /** The test on one chunk [s, e): the dates and values the mask keeps must
      span at least `length` in time and less than `eps` in value. An empty
      selection, whose `valueRange` would read past the array, does not flag. */
  predicate ConstantChunk(dates: seq<int>, vals: seq<int>, keep: seq<bool>, length: int, eps: real, s: nat, e: nat)
    requires s <= e <= |dates| && |vals| == |dates| && |keep| == |dates|
  {
    var dateRange := ChunkRange(dates, keep, s, e);
    var valueRange := ChunkRange(vals, keep, s, e);
    && dateRange.Some? && !(dateRange.value < length)
    && valueRange.Some? && (valueRange.value as real) < eps
  }

  /** Which of the windows ws pass the test. */
  function Qualifying(dates: seq<int>, vals: seq<int>, keep: seq<bool>, length: int, eps: real,
                      ws: seq<(nat, nat)>): (q: seq<bool>)
    requires |vals| == |dates| && |keep| == |dates| && ValidWindows(ws, |dates|)
    ensures |q| == |ws|
    ensures forall k :: 0 <= k < |ws| ==> (q[k] <==> ConstantChunk(dates, vals, keep, length, eps, ws[k].0, ws[k].1))
  {
    seq(|ws|, k requires 0 <= k < |ws| => ConstantChunk(dates, vals, keep, length, eps, ws[k].0, ws[k].1))
  }

  /** The flag column after the first k windows, those marked in q flagged. */
  function ConstantFrom(setFlag: Cell -> Cell, ws: seq<(nat, nat)>, q: seq<bool>, k: nat, flags: seq<Cell>): (r: seq<Cell>)
    requires ValidWindows(ws, |flags|) && |q| == |ws| && k <= |ws|
    ensures |r| == |flags|
  {
    if k == 0 then flags
    else
      var prev := ConstantFrom(setFlag, ws, q, k - 1, flags);
      if q[k - 1] then SetRange(setFlag, prev, ws[k - 1].0, ws[k - 1].1) else prev
  }

  /** One more window: flagged as a whole when it is marked. */
  lemma ConstantFromNext(setFlag: Cell -> Cell, ws: seq<(nat, nat)>, q: seq<bool>, k: nat, flags: seq<Cell>)
    requires ValidWindows(ws, |flags|) && |q| == |ws| && k < |ws|
    ensures ConstantFrom(setFlag, ws, q, k + 1, flags)
      == if q[k] then SetRange(setFlag, ConstantFrom(setFlag, ws, q, k, flags), ws[k].0, ws[k].1)
         else ConstantFrom(setFlag, ws, q, k, flags)
  {
  }

  /** How many of the first k windows are flagged and contain row j. */
  function Hits(ws: seq<(nat, nat)>, q: seq<bool>, k: nat, j: nat): (m: nat)
    requires |q| == |ws| && k <= |ws|
    ensures m <= k
  {
    if k == 0 then 0
    else Hits(ws, q, k - 1, j) + if q[k - 1] && ws[k - 1].0 <= j < ws[k - 1].1 then 1 else 0
  }

  /** Each row gets `setFlag` once per flagged window holding it and is left
      alone otherwise; in particular rows outside every flagged window keep
      their flag. */
  lemma ConstantFromHits(setFlag: Cell -> Cell, ws: seq<(nat, nat)>, q: seq<bool>, k: nat, flags: seq<Cell>)
    requires ValidWindows(ws, |flags|) && |q| == |ws| && k <= |ws|
    ensures forall j :: 0 <= j < |flags| ==>
      ConstantFrom(setFlag, ws, q, k, flags)[j] == Iterate(setFlag, Hits(ws, q, k, j), flags[j])
  {
    forall j | 0 <= j < |flags|
      ensures ConstantFrom(setFlag, ws, q, k, flags)[j] == Iterate(setFlag, Hits(ws, q, k, j), flags[j])
    {
      ConstantFromHitsAt(setFlag, ws, q, k, flags, j);
    }
  }

  /** ConstantFromHits for one row j, by induction on the windows. */
  lemma {:induction false} ConstantFromHitsAt(setFlag: Cell -> Cell, ws: seq<(nat, nat)>, q: seq<bool>, k: nat,
                                              flags: seq<Cell>, j: nat)
    requires ValidWindows(ws, |flags|) && |q| == |ws| && k <= |ws| && j < |flags|
    ensures ConstantFrom(setFlag, ws, q, k, flags)[j] == Iterate(setFlag, Hits(ws, q, k, j), flags[j])
  {
    if k > 0 {
      ConstantFromHitsAt(setFlag, ws, q, k - 1, flags, j);
      var prev := ConstantFrom(setFlag, ws, q, k - 1, flags);
      if q[k - 1] {
        SetRangeSpec(setFlag, prev, ws[k - 1].0, ws[k - 1].1);
      }
    }
  }

  /** Windows none of which is flagged leave the flags as they are. */
  lemma {:induction false} ConstantFromUnflagged(setFlag: Cell -> Cell, ws: seq<(nat, nat)>, q: seq<bool>, k: nat,
                                                 flags: seq<Cell>)
    requires ValidWindows(ws, |flags|) && |q| == |ws| && k <= |ws|
    requires forall i :: 0 <= i < k ==> !q[i]
    ensures ConstantFrom(setFlag, ws, q, k, flags) == flags
  {
    if k > 0 {
      ConstantFromUnflagged(setFlag, ws, q, k - 1, flags);
    }
  }

  /** The windows of `slidingWindowIndices(index, length)` without a step are
      non-empty and inside the index, and exist only for a positive length. */
  lemma WindowsShape(dates: seq<int>, length: int, ps: seq<(nat, nat)>)
    requires Windows(dates, length, None) == Ok(ps)
    ensures length > 0 && StrictlyIncreasing(dates)
    ensures forall k :: 0 <= k < |ps| ==> ps[k].0 < ps[k].1 < |dates|
  {
    if length <= 0 {
      WindowsPastEnd(dates, length, None);
    }
    forall k | 0 <= k < |ps| ensures ps[k].0 < ps[k].1 < |dates| {
      WindowBounds(dates, length, None, ps, k);
    }
  }

  /** The samples as the code hands them to `valueRange`: masked, then cast
      to int64. */
  function CastValues(values: seq<Value>, thmin: Option<real>): (r: seq<int>)
    ensures |r| == |values|
    ensures forall j :: 0 <= j < |values| ==> r[j] == CastInt64(MaskBelow(values[j], thmin))
  {
    seq(|values|, j requires 0 <= j < |values| => CastInt64(MaskBelow(values[j], thmin)))
  }

  /** `np.isfinite` of the cast array: an int64 is always finite, so the
      validity mask holds everywhere. */
  function FiniteInt64(vals: seq<int>): (mask: seq<bool>)
    ensures |mask| == |vals|
    ensures forall j :: 0 <= j < |vals| ==> mask[j]
  {
    seq(|vals|, _ => true)
  }

  /** `flagConstant(data, flags, field, flagger, eps, length, thmin)` as
      written, on the field's dates, samples and flags; `length` is the
      window `length - freq` in index ticks. */
  function FlagConstantSpec(setFlag: Cell -> Cell, dates: seq<int>, values: seq<Value>, flags: seq<Cell>,
                            eps: real, length: int, thmin: Option<real>): (r: Result<seq<Cell>, ScanError>)
    requires |values| == |dates| && |flags| == |dates|
    ensures r.Ok? ==> |r.value| == |flags|
  {
    match Windows(dates, length, None)
    case Err(e) => Err(e)
    case Ok(ps) =>
      WindowsShape(dates, length, ps);
      var vals := CastValues(values, thmin);
      Ok(ConstantFrom(setFlag, ps, Qualifying(dates, vals, FiniteInt64(vals), length, eps, ps), |ps|, flags))
  }

  /** `flagcol[start:end] = flagger.setFlags(flagcol[start:end])` in place. */
  method FlagRange(setFlag: Cell -> Cell, flagcol: array<Cell>, s: nat, e: nat)
    requires s <= e <= flagcol.Length
    modifies flagcol
    ensures flagcol[..] == SetRange(setFlag, old(flagcol[..]), s, e)
  {
    ghost var before := flagcol[..];
    SetRangeSpec(setFlag, before, s, e);
    var j := s;
    while j < e
      invariant s <= j <= e
      invariant forall i :: 0 <= i < flagcol.Length ==>
        flagcol[i] == if s <= i < j then setFlag(before[i]) else before[i]
    {
      flagcol[j] := setFlag(flagcol[j]);
      j := j + 1;
    }
  }

  /** The body of `flagConstant`'s loop for the window [s, e): a window
      whose dates span less than `length` is skipped (`continue`), and one
      whose values span less than `eps` is flagged. */
  method ConstantWindow(setFlag: Cell -> Cell, dates: seq<int>, vals: seq<int>, mask: seq<bool>, flagcol: array<Cell>,
                        length: int, eps: real, s: nat, e: nat)
    requires |vals| == |dates| && |mask| == |dates| && flagcol.Length == |dates| && s <= e <= |dates|
    modifies flagcol
    ensures ConstantChunk(dates, vals, mask, length, eps, s, e) ==> flagcol[..] == SetRange(setFlag, old(flagcol[..]), s, e)
    ensures !ConstantChunk(dates, vals, mask, length, eps, s, e) ==> flagcol[..] == old(flagcol[..])
  {
    var dateRange := ValueRange(Select(dates[s..e], mask[s..e]));
    if dateRange.None? || dateRange.value < length {
      return;
    }
    var valueRange := ValueRange(Select(vals[s..e], mask[s..e]));
    if valueRange.Some? && (valueRange.value as real) < eps {
      FlagRange(setFlag, flagcol, s, e);
    }
  }

  /** `flagConstant` as written: the flag column is updated window by window. */
  method FlagConstant(setFlag: Cell -> Cell, dates: seq<int>, values: seq<Value>, flagcol: array<Cell>,
                      eps: real, length: int, thmin: Option<real>) returns (err: Option<ScanError>)
    requires |values| == |dates| && flagcol.Length == |dates|
    modifies flagcol
    ensures err.None? ==> FlagConstantSpec(setFlag, dates, values, old(flagcol[..]), eps, length, thmin) == Ok(flagcol[..])
    ensures err.Some? ==> FlagConstantSpec(setFlag, dates, values, old(flagcol[..]), eps, length, thmin) == Err(err.value)
    ensures err.Some? ==> flagcol[..] == old(flagcol[..])
  {
    var vals := CastValues(values, thmin);
    var mask := FiniteInt64(vals);
    var r := SlidingWindowIndices(dates, length, None);
    if r.Err? {
      return Some(r.error);
    }
    var ps := r.value;
    WindowsShape(dates, length, ps);
    ghost var before := flagcol[..];
    ghost var q := Qualifying(dates, vals, mask, length, eps, ps);
    var k := 0;
    while k < |ps|
      invariant 0 <= k <= |ps|
      invariant flagcol[..] == ConstantFrom(setFlag, ps, q, k, before)
    {
      ConstantFromNext(setFlag, ps, q, k, before);
      ConstantWindow(setFlag, dates, vals, mask, flagcol, length, eps, ps[k].0, ps[k].1);
      k := k + 1;
    }
    return None;
  }

  /** Every element selected from xs is an element of xs. */
  lemma {:induction false} SelectIn(xs: seq<int>, keep: seq<bool>)
    requires |keep| == |xs|
    ensures forall x :: x in Select(xs, keep) ==> x in xs
  {
    if |xs| > 0 {
      SelectIn(xs[1..], keep[1..]);
    }
  }

  /** On a strictly increasing index, whatever a mask keeps of the rows
      [s, e) spans less than `length` when every date there lies before
      `dates[s] + length`. */
  lemma SpanBelow(dates: seq<int>, keep: seq<bool>, length: int, s: nat, e: nat)
    requires StrictlyIncreasing(dates) && s < e <= |dates| && |keep| == |dates| && length <= Int64Max
    requires forall j :: 0 <= j < e ==> dates[j] < dates[s] + length
    requires ChunkRange(dates, keep, s, e).Some?
    ensures ChunkRange(dates, keep, s, e).value < length
  {
    var ds := Select(dates[s..e], keep[s..e]);
    SelectIn(dates[s..e], keep[s..e]);
    IncreasingAll(dates);
    assert SeqMax(ds) in dates[s..e] && SeqMin(ds) in dates[s..e];
  }

  /** As written, `flagConstant` never sets a flag: a chunk stops before
      `end_idx`, the first row at or past `start_date + length`, so its
      dates always span less than `length` and every window is skipped. */
  lemma FlagConstantNeverFlags(setFlag: Cell -> Cell, dates: seq<int>, values: seq<Value>, flags: seq<Cell>,
                               eps: real, length: int, thmin: Option<real>)
    requires |values| == |dates| && |flags| == |dates| && length <= Int64Max
    requires FlagConstantSpec(setFlag, dates, values, flags, eps, length, thmin).Ok?
    ensures FlagConstantSpec(setFlag, dates, values, flags, eps, length, thmin).value == flags
  {
    var ps := Windows(dates, length, None).value;
    WindowsShape(dates, length, ps);
    var vals := CastValues(values, thmin);
    var keep := FiniteInt64(vals);
    var q := Qualifying(dates, vals, keep, length, eps, ps);
    forall i | 0 <= i < |ps|
      ensures !q[i]
    {
      WindowBounds(dates, length, None, ps, i);
      if ChunkRange(dates, keep, ps[i].0, ps[i].1).Some? {
        SpanBelow(dates, keep, length, ps[i].0, ps[i].1);
      }
    }
    ConstantFromUnflagged(setFlag, ps, q, |ps|, flags);
  }

  /** The chunk the code means: `[start_idx, end_idx]` when `end_idx` falls
      exactly on `start_date + length`, the end date the search was after. */
  function InclusiveWindows(dates: seq<int>, length: int, ps: seq<(nat, nat)>): (ws: seq<(nat, nat)>)
    requires forall k :: 0 <= k < |ps| ==> ps[k].0 < ps[k].1 < |dates|
    ensures |ws| == |ps| && ValidWindows(ws, |dates|)
    ensures forall k :: 0 <= k < |ps| ==>
      ws[k] == (ps[k].0, if dates[ps[k].1] == dates[ps[k].0] + length then ps[k].1 + 1 else ps[k].1)
  {
    seq(|ps|, k requires 0 <= k < |ps| =>
      (ps[k].0, if dates[ps[k].1] == dates[ps[k].0] + length then ps[k].1 + 1 else ps[k].1))
  }

  /** Which samples count: `np.isfinite` taken on the masked floats, before
      the cast, so missing and below-threshold samples drop out. */
  function Retained(values: seq<Value>, thmin: Option<real>): (keep: seq<bool>)
    ensures |keep| == |values|
    ensures forall j :: 0 <= j < |values| ==> (keep[j] <==> values[j].Num? && !(thmin.Some? && values[j].x < thmin.value))
  {
    seq(|values|, j requires 0 <= j < |values| => MaskBelow(values[j], thmin).Num?)
  }

  /** `flagConstant` as intended: the validity mask is taken before the
      cast, and a chunk reaches its end date. */
  function FlagConstantFixed(setFlag: Cell -> Cell, dates: seq<int>, values: seq<Value>, flags: seq<Cell>,
                             eps: real, length: int, thmin: Option<real>): (r: Result<seq<Cell>, ScanError>)
    requires |values| == |dates| && |flags| == |dates|
    ensures r.Ok? ==> |r.value| == |flags|
  {
    match Windows(dates, length, None)
    case Err(e) => Err(e)
    case Ok(ps) =>
      WindowsShape(dates, length, ps);
      var ws := InclusiveWindows(dates, length, ps);
      Ok(ConstantFrom(setFlag, ws, Qualifying(dates, CastValues(values, thmin), Retained(values, thmin), length, eps, ws),
                      |ps|, flags))
  }

  /** With the fix, a chunk is flagged only when its end date is present:
      otherwise its dates still span less than `length`. */
  lemma FixedNeedsEndDate(dates: seq<int>, values: seq<Value>, eps: real, length: int, thmin: Option<real>,
                          ps: seq<(nat, nat)>, k: nat)
    requires |values| == |dates| && length <= Int64Max
    requires Windows(dates, length, None) == Ok(ps) && k < |ps|
    requires forall i :: 0 <= i < |ps| ==> ps[i].0 < ps[i].1 < |dates|
    requires var ws := InclusiveWindows(dates, length, ps);
      ConstantChunk(dates, CastValues(values, thmin), Retained(values, thmin), length, eps, ws[k].0, ws[k].1)
    ensures dates[ps[k].1] == dates[ps[k].0] + length
  {
    var ws := InclusiveWindows(dates, length, ps);
    assert StrictlyIncreasing(dates);
    WindowBounds(dates, length, None, ps, k);
    if dates[ps[k].1] != dates[ps[k].0] + length {
      SpanBelow(dates, Retained(values, thmin), length, ps[k].0, ps[k].1);
    }
  }

  /** A chunk on a strictly increasing index, all of it kept, whose last
      date lies `length` after its first, spans exactly `length`. */
  lemma ExactSpan(dates: seq<int>, keep: seq<bool>, length: int, s: nat, e: nat)
    requires StrictlyIncreasing(dates) && |keep| == |dates| && s < e <= |dates|
    requires 0 < length <= Int64Max && dates[e - 1] == dates[s] + length
    requires forall j :: s <= j < e ==> keep[j]
    ensures ChunkRange(dates, keep, s, e) == Some(length)
  {
    var ds := dates[s..e];
    SelectAll(ds, keep[s..e]);
    IncreasingSlice(dates, s, e);
    assert SeqMax(ds) - SeqMin(ds) == length;
    assert Range(ds) == Some(length);
  }

  /** The dates in [s, e) of a strictly increasing index run from dates[s]
      to dates[e - 1]. */
  lemma IncreasingSlice(dates: seq<int>, s: nat, e: nat)
    requires StrictlyIncreasing(dates) && s < e <= |dates|
    ensures SeqMin(dates[s..e]) == dates[s] && SeqMax(dates[s..e]) == dates[e - 1]
  {
    var ds := dates[s..e];
    assert StrictlyIncreasing(ds) by {
      forall i | 0 < i < |ds|
        ensures ds[i - 1] < ds[i]
      {
        assert ds[i - 1] == dates[s + i - 1] && ds[i] == dates[s + i];
      }
    }
    IncreasingEnds(ds);
  }

  /** On a strictly increasing sequence the minimum is the first element and
      the maximum the last. */
  lemma {:induction false} IncreasingEnds(xs: seq<int>)
    requires StrictlyIncreasing(xs) && |xs| > 0
    ensures SeqMin(xs) == xs[0] && SeqMax(xs) == xs[|xs| - 1]
  {
    if |xs| > 1 {
      var init := xs[..|xs| - 1];
      assert StrictlyIncreasing(init);
      IncreasingEnds(init);
      IncreasingPair(xs, 0, |xs| - 1);
    }
  }

  /** A chunk, all of it kept, whose values pairwise differ by less than
      `eps` has a value range below `eps`. */
  lemma NarrowSpread(vals: seq<int>, keep: seq<bool>, eps: real, s: nat, e: nat)
    requires |keep| == |vals| && s < e <= |vals| && eps <= Int64Max as real
    requires forall j :: s <= j < e ==> keep[j]
    requires forall i, j :: s <= i < e && s <= j < e ==> ((vals[i] - vals[j]) as real) < eps
    ensures ChunkRange(vals, keep, s, e).Some? && (ChunkRange(vals, keep, s, e).value as real) < eps
  {
    SelectAll(vals[s..e], keep[s..e]);
    var vs := vals[s..e];
    assert SeqMax(vs) in vs && SeqMin(vs) in vs;
  }

  /** With the fix, a run of retained samples that reaches `length` and
      whose cast values differ by less than `eps` is flagged. */
  lemma FixedFlagsConstantRun(dates: seq<int>, values: seq<Value>, eps: real, length: int, thmin: Option<real>,
                              ps: seq<(nat, nat)>, k: nat)
    requires |values| == |dates| && length <= Int64Max && eps <= Int64Max as real
    requires Windows(dates, length, None) == Ok(ps) && k < |ps|
    requires forall i :: 0 <= i < |ps| ==> ps[i].0 < ps[i].1 < |dates|
    requires dates[ps[k].1] == dates[ps[k].0] + length
    requires forall j :: ps[k].0 <= j <= ps[k].1 ==> Retained(values, thmin)[j]
    requires forall i, j :: ps[k].0 <= i <= ps[k].1 && ps[k].0 <= j <= ps[k].1 ==>
      ((CastValues(values, thmin)[i] - CastValues(values, thmin)[j]) as real) < eps
    ensures var ws := InclusiveWindows(dates, length, ps);
      ConstantChunk(dates, CastValues(values, thmin), Retained(values, thmin), length, eps, ws[k].0, ws[k].1)
  {
    var s, e := ps[k].0, ps[k].1 + 1;
    var vals, keep := CastValues(values, thmin), Retained(values, thmin);
    assert InclusiveWindows(dates, length, ps)[k] == (s, e);
    WindowsShape(dates, length, ps);
    ExactSpan(dates, keep, length, s, e);
    NarrowSpread(vals, keep, eps, s, e);
  }

  // ---------------------------------------------------------------------
  // flagMad

  /** One pass of `_flagMad`'s loop on a chunk: `data[i+1:] = np.diff(data[i:])`,
      then `data[i] = np.nan`. Only defined while i is inside the chunk. */
  function DiffOnce(d: seq<Value>, i: nat): (r: seq<Value>)
    requires i < |d|
    ensures |r| == |d|
  {
    d[..i] + [NaN] + seq(|d| - i - 1, j requires 0 <= j < |d| - i - 1 => Minus(d[i + 1 + j], d[i + j]))
  }

  /** A pass keeps the rows before i, blanks row i and replaces every later
      row by its difference to the row before it. */
  lemma DiffOnceSpec(d: seq<Value>, i: nat)
    requires i < |d|
    ensures DiffOnce(d, i)[..i] == d[..i] && DiffOnce(d, i)[i] == NaN
    ensures forall j :: i < j < |d| ==> DiffOnce(d, i)[j] == Minus(d[j], d[j - 1])
  {
    var r := DiffOnce(d, i);
    assert r[..i] == d[..i];
    forall j | i < j < |d|
      ensures r[j] == Minus(d[j], d[j - 1])
    {
      assert r[j] == seq(|d| - i - 1, m requires 0 <= m < |d| - i - 1 => Minus(d[i + 1 + m], d[i + m]))[j - i - 1];
    }
  }

  /** The chunk after `_flagMad`'s k passes, or None when a pass runs past
      the chunk: `data[i] = np.nan` with i = len(data) raises IndexError. */
  function Differenced(d: seq<Value>, k: nat): (r: Option<seq<Value>>)
    ensures r.Some? <==> k <= |d|
    ensures r.Some? ==> |r.value| == |d|
  {
    if k == 0 then Some(d)
    else
      match Differenced(d, k - 1)
      case None => None
      case Some(p) => if k - 1 < |p| then Some(DiffOnce(p, k - 1)) else None
  }

  /** After k passes the first k rows of the chunk are missing. */
  lemma {:induction false} DifferencedHead(d: seq<Value>, k: nat)
    requires k <= |d|
    ensures forall j :: 0 <= j < k ==> Differenced(d, k).value[j] == NaN
  {
    if k > 0 {
      DifferencedHead(d, k - 1);
      var p := Differenced(d, k - 1).value;
      DiffOnceSpec(p, k - 1);
      forall j | 0 <= j < k
        ensures Differenced(d, k).value[j] == NaN
      {
        if j < k - 1 {
          assert DiffOnce(p, k - 1)[j] == DiffOnce(p, k - 1)[..k - 1][j];
        }
      }
    }
  }

  /** The sum of the numbers among r[1..j]. */
  function SumFrom1(r: seq<Value>, j: nat): real
    requires j < |r|
  {
    if j == 0 then 0.0 else SumFrom1(r, j - 1) + (if r[j].Num? then r[j].x else 0.0)
  }

  /** Summing the first differences of a chunk without missing samples gives
      the chunk back: row j is row 0 plus the differences up to j. */
  lemma {:induction false} DiffOnceSums(d: seq<Value>, j: nat)
    requires 0 < |d| && j < |d| && forall m :: 0 <= m < |d| ==> d[m].Num?
    ensures d[j].x == d[0].x + SumFrom1(Differenced(d, 1).value, j)
  {
    var r := Differenced(d, 1).value;
    DiffOnceSpec(d, 0);
    if j > 0 {
      DiffOnceSums(d, j - 1);
      assert r[j] == Minus(d[j], d[j - 1]);
    }
  }

  /** `a < b` between samples: false when either is missing, as numpy
      compares NaN. */
  predicate Less(a: Value, b: Value) {
    a.Num? && b.Num? && a.x < b.x
  }

  /** `(data < lower) | (data > upper)` with `lower, upper = median - tresh,
      median + tresh`; the limits come from `limits`, which stands for the
      median and MAD computation. */
  function MadFlags(chunk: seq<Value>, lower: Value, upper: Value): (m: seq<bool>)
    ensures |m| == |chunk|
  {
    seq(|chunk|, j requires 0 <= j < |chunk| => Less(chunk[j], lower) || Less(upper, chunk[j]))
  }

  /** A row is an outlier exactly when its sample lies below the lower or
      above the upper limit. */
  lemma MadFlagsSpec(chunk: seq<Value>, lower: Value, upper: Value)
    ensures forall j :: 0 <= j < |chunk| ==>
      (MadFlags(chunk, lower, upper)[j] <==> Less(chunk[j], lower) || Less(upper, chunk[j]))
  {
  }

  /** A missing sample is never an outlier; in particular the first `deriv`
      rows of each window are never flagged by it. */
  lemma MadSkipsHead(d: seq<Value>, deriv: nat, lower: Value, upper: Value, j: nat)
    requires deriv <= |d| && j < deriv
    ensures !MadFlags(Differenced(d, deriv).value, lower, upper)[j]
  {
    DifferencedHead(d, deriv);
    MadFlagsSpec(Differenced(d, deriv).value, lower, upper);
  }

  /** The mask after `mask[:] = False; mask[s:s+len(m)] = m`. */
  function WindowMask(n: nat, s: nat, m: seq<bool>): (mask: seq<bool>)
    requires s + |m| <= n
    ensures |mask| == n
  {
    seq(n, j requires 0 <= j < n => s <= j < s + |m| && m[j - s])
  }

  /** The reset mask holds exactly on the rows of the window where m does. */
  lemma WindowMaskSpec(n: nat, s: nat, m: seq<bool>)
    requires s + |m| <= n
    ensures forall j :: 0 <= j < n ==> (WindowMask(n, s, m)[j] <==> s <= j < s + |m| && m[j - s])
  {
  }

  /** `flagcol[mask] = flagger.setFlag(flagcol[mask])`. */
  function SetWhere(setFlag: Cell -> Cell, flags: seq<Cell>, mask: seq<bool>): (r: seq<Cell>)
    requires |mask| == |flags|
    ensures |r| == |flags|
  {
    seq(|flags|, j requires 0 <= j < |flags| => if mask[j] then setFlag(flags[j]) else flags[j])
  }

  /** Flagging the rows from s on where m holds: setting the reset mask, then
      the flags where it holds. */
  function FlagWhere(setFlag: Cell -> Cell, flags: seq<Cell>, s: nat, m: seq<bool>): (r: seq<Cell>)
    requires s + |m| <= |flags|
    ensures |r| == |flags|
  {
    SetWhere(setFlag, flags, WindowMask(|flags|, s, m))
  }

  /** The samples `flagMad` works on: `datacol.mask(flagger.isFlagged(flagcol))`. */
  function Unflagged(isFlagged: Cell -> bool, data: seq<Value>, flags: seq<Cell>): (r: seq<Value>)
    requires |flags| == |data|
    ensures |r| == |data|
    ensures forall j :: 0 <= j < |data| ==> r[j] == if isFlagged(flags[j]) then NaN else data[j]
  {
    seq(|data|, j requires 0 <= j < |data| => if isFlagged(flags[j]) then NaN else data[j])
  }

  /** The array `values` and the flag column while `flagMad` runs. */
  datatype MadState = MadState(values: seq<Value>, flags: seq<Cell>)

  /** The rows a window [s, e) slices: `values[s:e]` is empty when e < s. */
  function SliceEnd(s: nat, e: nat): (hi: nat)
    ensures s <= hi && (e >= s ==> hi == e) && (e < s ==> hi == s)
  {
    if e < s then s else e
  }

  /** One window [s, hi) as written: the chunk is a view of `values`, so the
      differencing stays in `values` for the windows after it. None when the
      differencing raises. */
  function MadStep(setFlag: Cell -> Cell, limits: seq<Value> -> (Value, Value), deriv: nat,
                   st: MadState, s: nat, hi: nat): (r: Option<MadState>)
    requires s <= hi <= |st.values| && |st.flags| == |st.values|
    ensures r.Some? ==> |r.value.values| == |st.values| && |r.value.flags| == |st.flags|
  {
    match Differenced(st.values[s..hi], deriv)
    case None => None
    case Some(chunk) =>
      var (lower, upper) := limits(chunk);
      Some(MadState(st.values[..s] + chunk + st.values[hi..], FlagWhere(setFlag, st.flags, s, MadFlags(chunk, lower, upper))))
  }

  /** The state after the first k windows, and whether a window raised (the
      loop stops there). */
  function MadFrom(setFlag: Cell -> Cell, limits: seq<Value> -> (Value, Value), deriv: nat,
                   ws: seq<(nat, nat)>, k: nat, st: MadState): (r: (MadState, bool))
    requires ValidWindows(ws, |st.values|) && |st.flags| == |st.values| && k <= |ws|
    ensures |r.0.values| == |st.values| && |r.0.flags| == |st.flags|
  {
    if k == 0 then (st, false)
    else
      var (prev, failed) := MadFrom(setFlag, limits, deriv, ws, k - 1, st);
      if failed then (prev, true)
      else
        match MadStep(setFlag, limits, deriv, prev, ws[k - 1].0, ws[k - 1].1)
        case None => (prev, true)
        case Some(next) => (next, false)
  }

  /** The windows of the scan with their slice ends. */
  function Sliced(ps: seq<(nat, nat)>): (ws: seq<(nat, nat)>)
    ensures |ws| == |ps|
    ensures forall k :: 0 <= k < |ps| ==> ws[k] == (ps[k].0, SliceEnd(ps[k].0, ps[k].1))
  {
    seq(|ps|, k requires 0 <= k < |ps| => (ps[k].0, SliceEnd(ps[k].0, ps[k].1)))
  }

  /** Why `flagMad` stops: the scan's error, or a window shorter than `deriv`. */
  datatype MadError = ScanFailed(error: ScanError) | WindowTooShort

  /** `flagMad(data, flags, field, flagger, length, z, deriv)` on the field's
      dates, samples and flags: `window` is `length - freq` and `day` one day,
      both in index ticks. Returns the flag column and the error, if any; a
      window that raises leaves the flags of the windows before it set. */
  function FlagMadSpec(flagger: Flagger, limits: seq<Value> -> (Value, Value), dates: seq<int>, data: seq<Value>,
                       flags: seq<Cell>, window: int, day: nat, deriv: nat): (r: (seq<Cell>, Option<MadError>))
    requires |data| == |dates| && |flags| == |dates|
    ensures |r.0| == |flags|
  {
    match Windows(dates, window, Some(day))
    case Err(e) => (flags, Some(ScanFailed(e)))
    case Ok(ps) =>
      var ws := Sliced(ps);
      assert ValidWindows(ws, |dates|) by {
        forall k | 0 <= k < |ps| ensures ws[k].0 <= ws[k].1 <= |dates| {
          WindowBounds(dates, window, Some(day), ps, k);
        }
      }
      var (st, failed) := MadFrom(flagger.setFlag, limits, deriv, ws, |ws|, MadState(Unflagged(flagger.isFlagged, data, flags), flags));
      (st.flags, if failed then Some(WindowTooShort) else None)
  }

  /** Once a window has raised, the later windows change nothing. */
  lemma {:induction false} MadFromStops(setFlag: Cell -> Cell, limits: seq<Value> -> (Value, Value), deriv: nat,
                                        ws: seq<(nat, nat)>, k: nat, n: nat, st: MadState)
    requires ValidWindows(ws, |st.values|) && |st.flags| == |st.values| && k <= n <= |ws|
    requires MadFrom(setFlag, limits, deriv, ws, k, st).1
    ensures MadFrom(setFlag, limits, deriv, ws, n, st) == MadFrom(setFlag, limits, deriv, ws, k, st)
    decreases n
  {
    if n > k {
      MadFromStops(setFlag, limits, deriv, ws, k, n - 1, st);
    }
  }

  /** One pass of the differencing on the rows [lo, hi) of `values`, in
      place; `np.diff` reads its operand before the assignment writes it. */
  method DiffStep(values: array<Value>, lo: nat, hi: nat, i: nat)
    requires lo + i < hi <= values.Length
    modifies values
    ensures forall m :: 0 <= m < values.Length ==>
      values[m] == if lo <= m < hi then DiffOnce(old(values[lo..hi]), i)[m - lo] else old(values[m])
  {
    ghost var before := values[..];
    var snapshot := values[lo + i..hi];
    var j := 0;
    while j < |snapshot| - 1
      invariant 0 <= j <= |snapshot| - 1
      invariant forall m :: 0 <= m < values.Length ==>
        values[m] == if lo + i + 1 <= m < lo + i + 1 + j then Minus(snapshot[m - lo - i], snapshot[m - lo - i - 1]) else before[m]
    {
      values[lo + i + 1 + j] := Minus(snapshot[j + 1], snapshot[j]);
      j := j + 1;
    }
    values[lo + i] := NaN;
    DiffOnceSpec(before[lo..hi], i);
  }

  /** `_flagMad`'s differencing loop on the view `values[lo:hi]`: it changes
      `values` itself. Fails, as `data[i] = np.nan` does, when the chunk has
      fewer than `deriv` rows. */
  method Differentiate(values: array<Value>, lo: nat, hi: nat, deriv: nat) returns (ok: bool)
    requires lo <= hi <= values.Length
    modifies values
    ensures ok <==> deriv <= hi - lo
    ensures ok ==> values[lo..hi] == Differenced(old(values[lo..hi]), deriv).value
    ensures values[..lo] == old(values[..lo]) && values[hi..] == old(values[hi..])
  {
    ghost var chunk := values[lo..hi];
    for i := 0 to deriv
      invariant i <= hi - lo
      invariant values[lo..hi] == Differenced(chunk, i).value
      invariant values[..lo] == old(values[..lo]) && values[hi..] == old(values[hi..])
    {
      if lo + i >= hi {
        return false;
      }
      ghost var prev := values[..];
      DiffStep(values, lo, hi, i);
      assert values[lo..hi] == DiffOnce(prev[lo..hi], i);
      assert values[..lo] == prev[..lo] && values[hi..] == prev[hi..];
    }
    return true;
  }

  /** The body of `flagMad`'s loop for the rows [s, hi): difference the view,
      reset the mask, set it from the chunk's outliers, flag where it holds. */
  method MadWindow(setFlag: Cell -> Cell, limits: seq<Value> -> (Value, Value), deriv: nat,
                   values: array<Value>, mask: array<bool>, flagcol: array<Cell>, s: nat, hi: nat) returns (ok: bool)
    requires s <= hi <= values.Length && mask.Length == values.Length && flagcol.Length == values.Length
    modifies values, mask, flagcol
    ensures ok <==> MadStep(setFlag, limits, deriv, MadState(old(values[..]), old(flagcol[..])), s, hi).Some?
    ensures ok ==>
      MadStep(setFlag, limits, deriv, MadState(old(values[..]), old(flagcol[..])), s, hi) == Some(MadState(values[..], flagcol[..]))
    ensures !ok ==> flagcol[..] == old(flagcol[..])
  {
    ghost var orig := values[..];
    assert orig[s..hi] == values[s..hi];
    ok := Differentiate(values, s, hi, deriv);
    if !ok {
      return;
    }
    var chunk := values[s..hi];
    var (lower, upper) := limits(chunk);
    var madFlags := MadFlags(chunk, lower, upper);
    SetMask(mask, s, madFlags);
    FlagMasked(setFlag, flagcol, mask);
    assert values[..] == values[..s] + values[s..hi] + values[hi..];
  }

  /** `mask[:] = False` followed by `mask[s:s+len(m)] = m`. */
  method SetMask(mask: array<bool>, s: nat, m: seq<bool>)
    requires s + |m| <= mask.Length
    modifies mask
    ensures mask[..] == WindowMask(mask.Length, s, m)
  {
    for j := 0 to mask.Length
      invariant forall i :: 0 <= i < j ==> !mask[i]
    {
      mask[j] := false;
    }
    for j := s to s + |m|
      invariant forall i :: 0 <= i < mask.Length ==> (mask[i] <==> s <= i < j && m[i - s])
    {
      mask[j] := m[j - s];
    }
    WindowMaskSpec(mask.Length, s, m);
  }

  /** `flagcol[mask] = flagger.setFlag(flagcol[mask])`, cell by cell. */
  method FlagMasked(setFlag: Cell -> Cell, flagcol: array<Cell>, mask: array<bool>)
    requires mask.Length == flagcol.Length
    modifies flagcol
    ensures flagcol[..] == SetWhere(setFlag, old(flagcol[..]), mask[..])
  {
    ghost var before := flagcol[..];
    for j := 0 to flagcol.Length
      invariant forall i :: 0 <= i < flagcol.Length ==>
        flagcol[i] == if i < j && mask[i] then setFlag(before[i]) else before[i]
    {
      if mask[j] {
        flagcol[j] := setFlag(flagcol[j]);
      }
    }
  }

  /** `flagMad` as written: `values` is computed once from the flags before
      the loop, and every window's differencing stays in it. */
  method FlagMad(flagger: Flagger, limits: seq<Value> -> (Value, Value), dates: seq<int>, data: seq<Value>,
                 flagcol: array<Cell>, window: int, day: nat, deriv: nat) returns (err: Option<MadError>)
    requires |data| == |dates| && flagcol.Length == |dates|
    modifies flagcol
    ensures (flagcol[..], err) == FlagMadSpec(flagger, limits, dates, data, old(flagcol[..]), window, day, deriv)
  {
    var masked := Unflagged(flagger.isFlagged, data, flagcol[..]);
    var values := new Value[|data|](j requires 0 <= j < |data| => masked[j]);
    var r := SlidingWindowIndices(dates, window, Some(day));
    if r.Err? {
      return Some(ScanFailed(r.error));
    }
    var ps := r.value;
    var mask := new bool[|data|](_ => false);
    var ws := Sliced(ps);
    assert ValidWindows(ws, |dates|) by {
      forall k | 0 <= k < |ps| ensures ws[k].0 <= ws[k].1 <= |dates| {
        WindowBounds(dates, window, Some(day), ps, k);
      }
    }
    assert values[..] == masked;
    var failed := MadLoop(flagger.setFlag, limits, deriv, values, mask, flagcol, ws);
    err := if failed then Some(WindowTooShort) else None;
  }

  /** `flagMad`'s loop over the windows, stopping at the first that raises. */
  method MadLoop(setFlag: Cell -> Cell, limits: seq<Value> -> (Value, Value), deriv: nat,
                 values: array<Value>, mask: array<bool>, flagcol: array<Cell>, ws: seq<(nat, nat)>) returns (failed: bool)
    requires mask.Length == values.Length && flagcol.Length == values.Length && ValidWindows(ws, values.Length)
    modifies values, mask, flagcol
    ensures var r := MadFrom(setFlag, limits, deriv, ws, |ws|, MadState(old(values[..]), old(flagcol[..])));
      flagcol[..] == r.0.flags && failed == r.1
  {
    ghost var st := MadState(values[..], flagcol[..]);
    for k := 0 to |ws|
      invariant MadFrom(setFlag, limits, deriv, ws, k, st) == (MadState(values[..], flagcol[..]), false)
    {
      ghost var prev := MadState(values[..], flagcol[..]);
      var ok := MadWindow(setFlag, limits, deriv, values, mask, flagcol, ws[k].0, ws[k].1);
      if !ok {
        assert MadFrom(setFlag, limits, deriv, ws, k + 1, st) == (prev, true);
        MadFromStops(setFlag, limits, deriv, ws, k + 1, |ws|, st);
        return true;
      }
    }
    return false;
  }

  // ---------------------------------------------------------------------
  // flagMad: what its loop guarantees, and the differencing that persists

  /** Some window among the first k is shorter than `deriv`. */
  predicate SomeTooShort(ws: seq<(nat, nat)>, k: nat, deriv: nat)
    requires k <= |ws|
  {
    exists i :: 0 <= i < k && ws[i].1 < ws[i].0 + deriv
  }

  /** A window raises exactly when it has fewer rows than `deriv`. */
  lemma MadStepFails(setFlag: Cell -> Cell, limits: seq<Value> -> (Value, Value), deriv: nat,
                     st: MadState, s: nat, hi: nat)
    requires s <= hi <= |st.values| && |st.flags| == |st.values|
    ensures MadStep(setFlag, limits, deriv, st, s, hi).None? <==> hi < s + deriv
  {
    assert |st.values[s..hi]| == hi - s;
  }

  /** The loop raises exactly when one of its windows has fewer rows than
      `deriv`: the differencing then writes one row past the chunk. */
  lemma {:induction false} MadFromFails(setFlag: Cell -> Cell, limits: seq<Value> -> (Value, Value), deriv: nat,
                                        ws: seq<(nat, nat)>, k: nat, st: MadState)
    requires ValidWindows(ws, |st.values|) && |st.flags| == |st.values| && k <= |ws|
    ensures MadFrom(setFlag, limits, deriv, ws, k, st).1 <==> SomeTooShort(ws, k, deriv)
  {
    if k > 0 {
      MadFromFails(setFlag, limits, deriv, ws, k - 1, st);
      var (prev, failed) := MadFrom(setFlag, limits, deriv, ws, k - 1, st);
      MadStepFails(setFlag, limits, deriv, prev, ws[k - 1].0, ws[k - 1].1);
      if failed {
        var i :| 0 <= i < k - 1 && ws[i].1 < ws[i].0 + deriv;
        assert 0 <= i < k && ws[i].1 < ws[i].0 + deriv;
      } else if ws[k - 1].1 < ws[k - 1].0 + deriv {
        assert 0 <= k - 1 < k && ws[k - 1].1 < ws[k - 1].0 + deriv;
      }
    }
  }

  /** A window leaves the samples and flags outside its rows as they are. */
  lemma MadStepOutside(setFlag: Cell -> Cell, limits: seq<Value> -> (Value, Value), deriv: nat,
                       st: MadState, s: nat, hi: nat, j: nat)
    requires s <= hi <= |st.values| && |st.flags| == |st.values| && j < |st.values| && !(s <= j < hi)
    requires MadStep(setFlag, limits, deriv, st, s, hi).Some?
    ensures MadStep(setFlag, limits, deriv, st, s, hi).value.values[j] == st.values[j]
    ensures MadStep(setFlag, limits, deriv, st, s, hi).value.flags[j] == st.flags[j]
  {
    var chunk := Differenced(st.values[s..hi], deriv).value;
    var next := st.values[..s] + chunk + st.values[hi..];
    if j < s {
      assert next[j] == st.values[..s][j];
    } else {
      assert next[j] == st.values[hi..][j - hi];
    }
  }

  /** Rows outside every window keep both their sample and their flag. */
  lemma {:induction false} MadFromConfined(setFlag: Cell -> Cell, limits: seq<Value> -> (Value, Value), deriv: nat,
                                           ws: seq<(nat, nat)>, k: nat, st: MadState, j: nat)
    requires ValidWindows(ws, |st.values|) && |st.flags| == |st.values| && k <= |ws| && j < |st.values|
    requires forall i :: 0 <= i < k ==> !(ws[i].0 <= j < ws[i].1)
    ensures MadFrom(setFlag, limits, deriv, ws, k, st).0.values[j] == st.values[j]
    ensures MadFrom(setFlag, limits, deriv, ws, k, st).0.flags[j] == st.flags[j]
  {
    if k > 0 {
      MadFromConfined(setFlag, limits, deriv, ws, k - 1, st, j);
      var (prev, failed) := MadFrom(setFlag, limits, deriv, ws, k - 1, st);
      if !failed && MadStep(setFlag, limits, deriv, prev, ws[k - 1].0, ws[k - 1].1).Some? {
        MadStepOutside(setFlag, limits, deriv, prev, ws[k - 1].0, ws[k - 1].1, j);
      }
    }
  }

  /** One window judged on the samples it holds before any differencing:
      the chunk is a copy, as `values[start_idx:end_idx].copy()` would give. */
  function MadFixedStep(setFlag: Cell -> Cell, limits: seq<Value> -> (Value, Value), deriv: nat,
                        orig: seq<Value>, flags: seq<Cell>, s: nat, hi: nat): (r: Option<seq<Cell>>)
    requires s <= hi <= |orig| && |flags| == |orig|
    ensures r.Some? <==> s + deriv <= hi
    ensures r.Some? ==> |r.value| == |flags|
  {
    match Differenced(orig[s..hi], deriv)
    case None => None
    case Some(chunk) =>
      var (lower, upper) := limits(chunk);
      Some(FlagWhere(setFlag, flags, s, MadFlags(chunk, lower, upper)))
  }

  /** The flags after the first k windows of the corrected loop, and whether
      a window raised. */
  function MadFixedFrom(setFlag: Cell -> Cell, limits: seq<Value> -> (Value, Value), deriv: nat,
                        ws: seq<(nat, nat)>, k: nat, orig: seq<Value>, flags: seq<Cell>): (r: (seq<Cell>, bool))
    requires ValidWindows(ws, |orig|) && |flags| == |orig| && k <= |ws|
    ensures |r.0| == |flags|
  {
    if k == 0 then (flags, false)
    else
      var (prev, failed) := MadFixedFrom(setFlag, limits, deriv, ws, k - 1, orig, flags);
      if failed then (prev, true)
      else
        match MadFixedStep(setFlag, limits, deriv, orig, prev, ws[k - 1].0, ws[k - 1].1)
        case None => (prev, true)
        case Some(next) => (next, false)
  }

  /** Window w of at least `deriv` rows finds row j an outlier: j is in w and
      its `deriv`-th difference, taken on the samples of w alone, lies
      outside the limits of w. */
  predicate MadHit(limits: seq<Value> -> (Value, Value), deriv: nat, orig: seq<Value>, w: (nat, nat), j: nat)
    requires w.0 <= w.1 <= |orig|
  {
    w.0 <= j < w.1 && w.0 + deriv <= w.1 &&
    var chunk := Differenced(orig[w.0..w.1], deriv).value;
    var (lower, upper) := limits(chunk);
    MadFlags(chunk, lower, upper)[j - w.0]
  }

  /** How many of the first k windows find row j an outlier. */
  function MadHits(limits: seq<Value> -> (Value, Value), deriv: nat, orig: seq<Value>,
                   ws: seq<(nat, nat)>, k: nat, j: nat): (m: nat)
    requires ValidWindows(ws, |orig|) && k <= |ws|
    ensures m <= k
  {
    if k == 0 then 0
    else MadHits(limits, deriv, orig, ws, k - 1, j) + if MadHit(limits, deriv, orig, ws[k - 1], j) then 1 else 0
  }

  /** One window of the corrected loop sets row j's flag once when it finds
      the row an outlier, and leaves it alone otherwise. */
  lemma MadFixedStepAt(setFlag: Cell -> Cell, limits: seq<Value> -> (Value, Value), deriv: nat,
                       orig: seq<Value>, flags: seq<Cell>, s: nat, hi: nat, j: nat)
    requires s <= hi <= |orig| && |flags| == |orig| && j < |flags| && s + deriv <= hi
    ensures MadFixedStep(setFlag, limits, deriv, orig, flags, s, hi).value[j]
         == if MadHit(limits, deriv, orig, (s, hi), j) then setFlag(flags[j]) else flags[j]
  {
    var chunk := Differenced(orig[s..hi], deriv).value;
    var (lower, upper) := limits(chunk);
    WindowMaskSpec(|flags|, s, MadFlags(chunk, lower, upper));
  }

  /** The corrected loop, while no window has raised, gives each row
      `setFlag` once per window that finds it an outlier on its own samples,
      and leaves every other row alone. */
  lemma {:induction false} MadFixedHits(setFlag: Cell -> Cell, limits: seq<Value> -> (Value, Value), deriv: nat,
                                        ws: seq<(nat, nat)>, k: nat, orig: seq<Value>, flags: seq<Cell>, j: nat)
    requires ValidWindows(ws, |orig|) && |flags| == |orig| && k <= |ws| && j < |flags|
    requires !MadFixedFrom(setFlag, limits, deriv, ws, k, orig, flags).1
    ensures MadFixedFrom(setFlag, limits, deriv, ws, k, orig, flags).0[j]
         == Iterate(setFlag, MadHits(limits, deriv, orig, ws, k, j), flags[j])
  {
    if k > 0 {
      MadFixedHits(setFlag, limits, deriv, ws, k - 1, orig, flags, j);
      var prev := MadFixedFrom(setFlag, limits, deriv, ws, k - 1, orig, flags).0;
      MadFixedStepAt(setFlag, limits, deriv, orig, prev, ws[k - 1].0, ws[k - 1].1, j);
    }
  }

  /** `flagMad` with each window judged on a copy of its samples. */
  function FlagMadFixed(flagger: Flagger, limits: seq<Value> -> (Value, Value), dates: seq<int>, data: seq<Value>,
                        flags: seq<Cell>, window: int, day: nat, deriv: nat): (r: (seq<Cell>, Option<MadError>))
    requires |data| == |dates| && |flags| == |dates|
    ensures |r.0| == |flags|
  {
    match Windows(dates, window, Some(day))
    case Err(e) => (flags, Some(ScanFailed(e)))
    case Ok(ps) =>
      var ws := Sliced(ps);
      assert ValidWindows(ws, |dates|) by {
        forall k | 0 <= k < |ps| ensures ws[k].0 <= ws[k].1 <= |dates| {
          WindowBounds(dates, window, Some(day), ps, k);
        }
      }
      var (fl, failed) := MadFixedFrom(flagger.setFlag, limits, deriv, ws, |ws|, Unflagged(flagger.isFlagged, data, flags), flags);
      (fl, if failed then Some(WindowTooShort) else None)
  }

  /** A window that sees its own samples flags as the corrected one does. */
  lemma MadStepFixed(setFlag: Cell -> Cell, limits: seq<Value> -> (Value, Value), deriv: nat,
                     st: MadState, orig: seq<Value>, s: nat, hi: nat)
    requires s <= hi <= |st.values| && |st.flags| == |st.values| && |orig| == |st.values|
    requires st.values[s..hi] == orig[s..hi]
    ensures MadStep(setFlag, limits, deriv, st, s, hi).None? == MadFixedStep(setFlag, limits, deriv, orig, st.flags, s, hi).None?
    ensures MadStep(setFlag, limits, deriv, st, s, hi).Some? ==>
      MadStep(setFlag, limits, deriv, st, s, hi).value.flags == MadFixedStep(setFlag, limits, deriv, orig, st.flags, s, hi).value
  {
  }

  /** One more window keeps the loop as written and the corrected one in
      step when the window's rows still hold their original samples. */
  lemma MadAgreeNext(setFlag: Cell -> Cell, limits: seq<Value> -> (Value, Value), deriv: nat,
                     ws: seq<(nat, nat)>, k: nat, orig: seq<Value>, flags: seq<Cell>)
    requires ValidWindows(ws, |orig|) && |flags| == |orig| && 0 < k <= |ws|
    requires MadFrom(setFlag, limits, deriv, ws, k - 1, MadState(orig, flags)).0.flags
          == MadFixedFrom(setFlag, limits, deriv, ws, k - 1, orig, flags).0
    requires MadFrom(setFlag, limits, deriv, ws, k - 1, MadState(orig, flags)).1
          == MadFixedFrom(setFlag, limits, deriv, ws, k - 1, orig, flags).1
    requires MadFrom(setFlag, limits, deriv, ws, k - 1, MadState(orig, flags)).0.values[ws[k - 1].0..ws[k - 1].1]
          == orig[ws[k - 1].0..ws[k - 1].1]
    ensures MadFrom(setFlag, limits, deriv, ws, k, MadState(orig, flags)).0.flags
         == MadFixedFrom(setFlag, limits, deriv, ws, k, orig, flags).0
    ensures MadFrom(setFlag, limits, deriv, ws, k, MadState(orig, flags)).1
         == MadFixedFrom(setFlag, limits, deriv, ws, k, orig, flags).1
  {
    var prev := MadFrom(setFlag, limits, deriv, ws, k - 1, MadState(orig, flags)).0;
    MadStepFixed(setFlag, limits, deriv, prev, orig, ws[k - 1].0, ws[k - 1].1);
  }

  /** When the windows do not overlap, the rows of window k still hold their
      original samples after the windows before it. */
  lemma MadDisjointUntouched(setFlag: Cell -> Cell, limits: seq<Value> -> (Value, Value), deriv: nat,
                             ws: seq<(nat, nat)>, k: nat, orig: seq<Value>, flags: seq<Cell>)
    requires ValidWindows(ws, |orig|) && |flags| == |orig| && k < |ws|
    requires forall i :: 0 <= i < k ==> ws[i].1 <= ws[k].0
    ensures MadFrom(setFlag, limits, deriv, ws, k, MadState(orig, flags)).0.values[ws[k].0..ws[k].1]
         == orig[ws[k].0..ws[k].1]
  {
    var prev := MadFrom(setFlag, limits, deriv, ws, k, MadState(orig, flags)).0;
    forall j | ws[k].0 <= j < ws[k].1
      ensures prev.values[j] == orig[j]
    {
      MadFromConfined(setFlag, limits, deriv, ws, k, MadState(orig, flags), j);
    }
  }

  /** Windows that do not overlap never see each other's differences, so
      there the loop as written and the corrected one agree. */
  lemma {:induction false} MadDisjointAgrees(setFlag: Cell -> Cell, limits: seq<Value> -> (Value, Value), deriv: nat,
                                             ws: seq<(nat, nat)>, k: nat, orig: seq<Value>, flags: seq<Cell>)
    requires ValidWindows(ws, |orig|) && |flags| == |orig| && k <= |ws|
    requires forall i, i' :: 0 <= i < i' < |ws| ==> ws[i].1 <= ws[i'].0
    ensures MadFrom(setFlag, limits, deriv, ws, k, MadState(orig, flags)).0.flags
         == MadFixedFrom(setFlag, limits, deriv, ws, k, orig, flags).0
    ensures MadFrom(setFlag, limits, deriv, ws, k, MadState(orig, flags)).1
         == MadFixedFrom(setFlag, limits, deriv, ws, k, orig, flags).1
  {
    if k > 0 {
      MadDisjointAgrees(setFlag, limits, deriv, ws, k - 1, orig, flags);
      MadDisjointUntouched(setFlag, limits, deriv, ws, k - 1, orig, flags);
      MadAgreeNext(setFlag, limits, deriv, ws, k, orig, flags);
    }
  }

  /** A pair of samples differenced once. */
  lemma DiffPair(a: real, b: real)
    ensures Differenced([Num(a), Num(b)], 1) == Some([NaN, Num(b - a)])
  {
    var d := DiffOnce([Num(a), Num(b)], 0);
    assert d[1] == Minus(Num(b), Num(a)) == Num(b - a);
    assert d == [NaN, Num(b - a)];
  }

  /** Three samples under two overlapping windows [0, 2) and [1, 3), the
      limits fixed at (-10, 2.5) and `setFlag` writing 1. */
  const ExampleValues: seq<Value> := [Num(1.0), Num(2.0), Num(4.0)]
  const ExampleFlags: seq<Cell> := [None, None, None]
  const ExampleWindows: seq<(nat, nat)> := [(0, 2), (1, 3)]
  const ExampleLimits: seq<Value> -> (Value, Value) := (c: seq<Value>) => (Num(-10.0), Num(2.5))
  const ExampleSet: Cell -> Cell := (c: Cell) => Some(1)

  /** As written, the second window is differenced on top of the first
      window's differences: row 2 is judged by 4 - 1 = 3 and flagged. */
  lemma MadDifferencesPersist()
    ensures MadFrom(ExampleSet, ExampleLimits, 1, ExampleWindows, 2, MadState(ExampleValues, ExampleFlags)).0.flags[2] == Some(1)
  {
    var st := MadState(ExampleValues, ExampleFlags);
    assert ExampleValues[0..2] == [Num(1.0), Num(2.0)];
    DiffPair(1.0, 2.0);
    assert MadFlags([NaN, Num(1.0)], Num(-10.0), Num(2.5)) == [false, false];
    assert FlagWhere(ExampleSet, ExampleFlags, 0, [false, false]) == ExampleFlags;
    var st1 := MadState([NaN, Num(1.0), Num(4.0)], ExampleFlags);
    assert ExampleValues[..0] + [NaN, Num(1.0)] + ExampleValues[2..] == st1.values;
    assert MadStep(ExampleSet, ExampleLimits, 1, st, 0, 2) == Some(st1);
    assert MadFrom(ExampleSet, ExampleLimits, 1, ExampleWindows, 1, st) == (st1, false);
    assert st1.values[1..3] == [Num(1.0), Num(4.0)];
    DiffPair(1.0, 4.0);
    assert MadFlags([NaN, Num(3.0)], Num(-10.0), Num(2.5)) == [false, true];
    assert FlagWhere(ExampleSet, ExampleFlags, 1, [false, true])[2] == Some(1);
  }

  /** Judged on its own samples, row 2's difference is 4 - 2 = 2, inside
      the limits, and the row stays unflagged. */
  lemma MadCopyKeepsRow()
    ensures MadFixedFrom(ExampleSet, ExampleLimits, 1, ExampleWindows, 2, ExampleValues, ExampleFlags).0[2] == None
  {
    assert ExampleValues[0..2] == [Num(1.0), Num(2.0)];
    DiffPair(1.0, 2.0);
    assert MadFlags([NaN, Num(1.0)], Num(-10.0), Num(2.5)) == [false, false];
    assert FlagWhere(ExampleSet, ExampleFlags, 0, [false, false]) == ExampleFlags;
    assert MadFixedFrom(ExampleSet, ExampleLimits, 1, ExampleWindows, 1, ExampleValues, ExampleFlags) == (ExampleFlags, false);
    assert ExampleValues[1..3] == [Num(2.0), Num(4.0)];
    DiffPair(2.0, 4.0);
    assert MadFlags([NaN, Num(2.0)], Num(-10.0), Num(2.5)) == [false, false];
    assert FlagWhere(ExampleSet, ExampleFlags, 1, [false, false]) == ExampleFlags;
  }
}
