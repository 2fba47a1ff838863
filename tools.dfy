/** The window index scanner shared by the windowed tests: a forward linear
    search, the int64 value range, and the generator of (start, end) index
    pairs over a strictly increasing timestamp index. Timestamps are integer
    nanoseconds, as the source obtains them by casting the index to int64. */
module Tools {
  import opened Wrappers

  const Int64Min: int := -0x8000_0000_0000_0000
  const Int64Modulus: int := 0x1_0000_0000_0000_0000

  /** Two's-complement wrap-around of an int64 arithmetic result. */
  function Wrap64(x: int): (r: int)
    ensures Int64Min <= r < Int64Min + Int64Modulus
    ensures Int64Min <= x < Int64Min + Int64Modulus ==> r == x
  {
    (x - Int64Min) % Int64Modulus + Int64Min
  }

  // ---------------------------------------------------------------------
  // findIndex

  /** The smallest index i >= start with s[i] >= value, or -1 when there is
      none (FirstIndexSpec). */
  function FirstIndex(s: seq<int>, value: int, start: nat): (r: int)
    ensures r == -1 || start <= r < |s|
    decreases |s| - start
  {
    if start >= |s| then -1
    else if s[start] >= value then start
    else FirstIndex(s, value, start + 1)
  }

  /** FirstIndex finds the first index at or after start whose element reaches
      the value, and returns -1 exactly when every such element is below it. */
  lemma {:induction false} FirstIndexSpec(s: seq<int>, value: int, start: nat)
    ensures var r := FirstIndex(s, value, start);
      && (r == -1 || (start <= r < |s| && s[r] >= value))
      && (r == -1 <==> forall j :: start <= j < |s| ==> s[j] < value)
      && (r != -1 ==> forall j :: start <= j < r ==> s[j] < value)
    decreases |s| - start
  {
    if start < |s| && s[start] < value {
      FirstIndexSpec(s, value, start + 1);
    }
  }

  /** The source's `findIndex`: a while loop advancing i from start. */
  method FindIndex(s: seq<int>, value: int, start: nat) returns (i: int)
    ensures i == FirstIndex(s, value, start)
  {
    i := start;
    while i < |s|
      invariant start <= i
      invariant FirstIndex(s, value, i) == FirstIndex(s, value, start)
    {
      if s[i] >= value {
        return;
      }
      i := i + 1;
    }
    i := -1;
  }

  /** Searching from a later position loses nothing when everything skipped is below the value. */
  lemma {:induction false} FirstIndexResume(s: seq<int>, value: int, a: nat)
    requires a <= |s|
    requires forall j :: 0 <= j < a ==> s[j] < value
    ensures FirstIndex(s, value, a) == FirstIndex(s, value, 0)
    decreases a
  {
    if a > 0 {
      FirstIndexResume(s, value, a - 1);
    }
  }

  // ---------------------------------------------------------------------
  // valueRange

  function SeqMin(s: seq<int>): (m: int)
    requires |s| > 0
    ensures m in s
    ensures forall i :: 0 <= i < |s| ==> m <= s[i]
  {
    if |s| == 1 then s[0]
    else
      var m := SeqMin(s[..|s| - 1]);
      if s[|s| - 1] < m then s[|s| - 1] else m
  }

  function SeqMax(s: seq<int>): (m: int)
    requires |s| > 0
    ensures m in s
    ensures forall i :: 0 <= i < |s| ==> s[i] <= m
  {
    if |s| == 1 then s[0]
    else
      var m := SeqMax(s[..|s| - 1]);
      if s[|s| - 1] > m then s[|s| - 1] else m
  }

  /** What `valueRange` computes over int64 data: max - min with
      wrap-around. The empty input reads `iterable[0]`, which fails: None. */
  function Range(s: seq<int>): (r: Option<int>)
    ensures r.None? <==> s == []
    ensures r.Some? ==> Int64Min <= r.value < Int64Min + Int64Modulus
  {
    if |s| == 0 then None else Some(Wrap64(SeqMax(s) - SeqMin(s)))
  }

  /** The source's `valueRange`: one pass keeping the running minimum and maximum. */
  method ValueRange(s: seq<int>) returns (r: Option<int>)
    ensures r == Range(s)
  {
    if |s| == 0 {
      return None;
    }
    var minval := s[0];
    var maxval := minval;
    for k := 0 to |s|
      invariant minval in s && maxval in s && minval <= maxval
      invariant forall i :: 0 <= i < k ==> minval <= s[i] <= maxval
    {
      var v := s[k];
      if v < minval {
        minval := v;
      } else if v > maxval {
        maxval := v;
      }
    }
    ExtremesUnique(s, minval, maxval);
    r := Some(Wrap64(maxval - minval));
  }

  /** An element no larger than any other is the minimum, and one no smaller
      than any other the maximum. */
  lemma ExtremesUnique(s: seq<int>, lo: int, hi: int)
    requires lo in s && hi in s
    requires forall i :: 0 <= i < |s| ==> lo <= s[i] <= hi
    ensures lo == SeqMin(s) && hi == SeqMax(s)
  {
  }

  /** Without overflow the range is the largest pairwise difference, hence non-negative. */
  lemma ValueRangeExact(s: seq<int>)
    requires |s| > 0
    requires forall i, j :: 0 <= i < |s| && 0 <= j < |s| ==> s[i] - s[j] < Int64Modulus / 2
    ensures Wrap64(SeqMax(s) - SeqMin(s)) == SeqMax(s) - SeqMin(s) >= 0
    ensures forall i, j :: 0 <= i < |s| && 0 <= j < |s| ==> s[i] - s[j] <= SeqMax(s) - SeqMin(s)
  {
    var lo, hi := SeqMin(s), SeqMax(s);
    assert lo in s && hi in s;
  }

  /** The wrap-around matters: a window holding int64's minimum (the cast of a
      missing value) and a non-negative value has a negative range. */
  lemma ValueRangeWraps(x: int)
    requires 0 <= x < Int64Modulus / 2
    ensures Wrap64(SeqMax([Int64Min, x]) - SeqMin([Int64Min, x])) == x + Int64Min < 0
  {
    assert SeqMax([Int64Min, x]) == x;
    assert SeqMin([Int64Min, x]) == Int64Min;
  }

  // ---------------------------------------------------------------------
  // slidingWindowIndices

  datatype ScanError =
    | NonMonotonic      // "strictly monotic index needed"
    | IndexOutOfRange   // `dates[0]` of an empty index, or `dates[start_idx]` past the end

  /** Every consecutive pair increases: the negation of `np.any(np.diff(dates) <= 0)`. */
  predicate StrictlyIncreasing(s: seq<int>) {
    forall i :: 0 < i < |s| ==> s[i - 1] < s[i]
  }

  lemma {:induction false} IncreasingPair(s: seq<int>, i: nat, j: nat)
    requires StrictlyIncreasing(s) && i < j < |s|
    ensures s[i] < s[j]
    decreases j - i
  {
    if i + 1 < j {
      IncreasingPair(s, i, j - 1);
    }
  }

  lemma IncreasingAll(s: seq<int>)
    requires StrictlyIncreasing(s)
    ensures forall i, j :: 0 <= i < j < |s| ==> s[i] < s[j]
  {
    forall i, j | 0 <= i < j < |s| ensures s[i] < s[j] {
      IncreasingPair(s, i, j);
    }
  }

  function Last(s: seq<int>): int
    requires |s| > 0
  {
    s[|s| - 1]
  }

  /** `if iter_delta:` -- a missing step and a zero step both mean "advance by one". */
  predicate Advances(step: Option<int>) {
    step.Some? && step.value != 0
  }

  /** The start index after the window starting at s: the smallest index whose
      date is at least the start date plus the step, or simply s + 1. */
  function NextStart(dates: seq<int>, step: Option<int>, s: nat): int
    requires s < |dates|
  {
    if Advances(step) then FirstIndex(dates, dates[s] + step.value, 0) else s + 1
  }

  /** The pairs the generator yields from start index s on, or the error it raises. */
  function ScanFrom(dates: seq<int>, windowSize: int, step: Option<int>, s: nat): Result<seq<(nat, nat)>, ScanError>
    requires StrictlyIncreasing(dates) && s < |dates|
    requires step.Some? ==> step.value >= 0
    decreases |dates| - s
  {
    if dates[s] + windowSize > Last(dates) then Ok([])
    else
      var e := FirstIndex(dates, dates[s] + windowSize, 0);
      FirstIndexSpec(dates, dates[s] + windowSize, 0);
      assert e != -1 by {
        assert dates[|dates| - 1] >= dates[s] + windowSize;
      }
      var next := NextStart(dates, step, s);
      if next == -1 then Ok([(s, e)])
      else if next >= |dates| then Err(IndexOutOfRange)
      else
        assert next > s by {
          if Advances(step) {
            FirstIndexSpec(dates, dates[s] + step.value, 0);
            IncreasingAll(dates);
          }
        }
        Prepend([(s, e)], ScanFrom(dates, windowSize, step, next))
  }

  function Prepend(ps: seq<(nat, nat)>, r: Result<seq<(nat, nat)>, ScanError>): Result<seq<(nat, nat)>, ScanError> {
    match r
    case Ok(rest) => Ok(ps + rest)
    case Err(x) => Err(x)
  }

  lemma PrependNil(r: Result<seq<(nat, nat)>, ScanError>)
    ensures Prepend([], r) == r
  {
    if r.Ok? {
      assert [] + r.value == r.value;
    }
  }

  lemma PrependTwice(ps: seq<(nat, nat)>, qs: seq<(nat, nat)>, r: Result<seq<(nat, nat)>, ScanError>)
    ensures Prepend(ps, Prepend(qs, r)) == Prepend(ps + qs, r)
  {
    if r.Ok? {
      assert ps + (qs + r.value) == (ps + qs) + r.value;
    }
  }

  /** One step of the generator, spelled out. */
  lemma ScanFromUnfold(dates: seq<int>, windowSize: int, step: Option<int>, s: nat)
    requires StrictlyIncreasing(dates) && s < |dates|
    requires step.Some? ==> step.value >= 0
    requires dates[s] + windowSize <= Last(dates)
    ensures var e := FirstIndex(dates, dates[s] + windowSize, 0);
      var next := NextStart(dates, step, s);
      && 0 <= e < |dates|
      && (next == -1 || next > s)
      && ScanFrom(dates, windowSize, step, s)
         == if next == -1 then Ok([(s, e)])
            else if next >= |dates| then Err(IndexOutOfRange)
            else Prepend([(s, e)], ScanFrom(dates, windowSize, step, next))
  {
    FirstIndexSpec(dates, dates[s] + windowSize, 0);
    assert dates[|dates| - 1] >= dates[s] + windowSize;
    var next := NextStart(dates, step, s);
    if Advances(step) {
      FirstIndexSpec(dates, dates[s] + step.value, 0);
    }
    if Advances(step) && next != -1 && next <= s {
      if next < s {
        IncreasingPair(dates, next, s);
      }
    }
  }

  /** A step that does not fail yields one pair and continues from the next start. */
  lemma ScanFromStep(dates: seq<int>, windowSize: int, step: Option<int>, s: nat)
    requires StrictlyIncreasing(dates) && s < |dates|
    requires step.Some? ==> step.value >= 0
    requires dates[s] + windowSize <= Last(dates)
    requires NextStart(dates, step, s) < |dates|
    ensures var e := FirstIndex(dates, dates[s] + windowSize, 0);
      var next := NextStart(dates, step, s);
      && 0 <= e < |dates|
      && (next == -1 || next > s)
      && ScanFrom(dates, windowSize, step, s)
         == Prepend([(s, e)], if next == -1 then Ok([]) else ScanFrom(dates, windowSize, step, next))
  {
    ScanFromUnfold(dates, windowSize, step, s);
    var e := FirstIndex(dates, dates[s] + windowSize, 0);
    assert [(s, e)] + [] == [(s, e)];
  }

  /** What the generator's loop keeps true when it moves from start index s
      to the next start. */
  lemma ScanAdvance(dates: seq<int>, windowSize: int, step: Option<int>, s: nat,
                    pairs: seq<(nat, nat)>, full: Result<seq<(nat, nat)>, ScanError>)
    requires StrictlyIncreasing(dates) && s < |dates|
    requires step.Some? ==> step.value >= 0
    requires dates[s] + windowSize <= Last(dates)
    requires NextStart(dates, step, s) < |dates|
    requires full == Prepend(pairs, ScanFrom(dates, windowSize, step, s))
    ensures var e := FirstIndex(dates, dates[s] + windowSize, 0);
      var next := NextStart(dates, step, s);
      && 0 <= e < |dates|
      && (next == -1 || s < next < |dates|)
      && (var nextDate := if next == -1 then Last(dates) else dates[next];
          forall j :: 0 <= j < e ==> dates[j] < nextDate + windowSize)
      && full == Prepend(pairs + [(s, e)], if next == -1 then Ok([]) else ScanFrom(dates, windowSize, step, next))
  {
    ScanFromStep(dates, windowSize, step, s);
    FirstIndexSpec(dates, dates[s] + windowSize, 0);
    var e := FirstIndex(dates, dates[s] + windowSize, 0);
    var next := NextStart(dates, step, s);
    PrependTwice(pairs, [(s, e)], if next == -1 then Ok([]) else ScanFrom(dates, windowSize, step, next));
    if next == -1 && s < |dates| - 1 {
      IncreasingPair(dates, s, |dates| - 1);
    } else if next != -1 {
      IncreasingPair(dates, s, next);
    }
  }

  /** Every pair yielded from start index s on starts at or after s, fits
      before the last date, and ends at the first index reaching its bound. */
  lemma {:induction false} ScanFromPairs(dates: seq<int>, windowSize: int, step: Option<int>, s: nat, ps: seq<(nat, nat)>)
    requires StrictlyIncreasing(dates) && s < |dates|
    requires step.Some? ==> step.value >= 0
    requires ScanFrom(dates, windowSize, step, s) == Ok(ps)
    ensures forall k :: 0 <= k < |ps| ==>
      && s <= ps[k].0 < |dates|
      && dates[ps[k].0] + windowSize <= Last(dates)
      && ps[k].1 == FirstIndex(dates, dates[ps[k].0] + windowSize, 0)
    decreases |dates| - s
  {
    if dates[s] + windowSize <= Last(dates) {
      ScanFromUnfold(dates, windowSize, step, s);
      var next := NextStart(dates, step, s);
      if next != -1 && next < |dates| {
        var rest := ScanFrom(dates, windowSize, step, next).value;
        ScanFromPairs(dates, windowSize, step, next, rest);
        assert ps == [ps[0]] + rest;
      }
    }
  }

  /** The first pair starts at s and each later one where NextStart puts it. */
  lemma {:induction false} ScanFromSuccession(dates: seq<int>, windowSize: int, step: Option<int>, s: nat, ps: seq<(nat, nat)>)
    requires StrictlyIncreasing(dates) && s < |dates|
    requires step.Some? ==> step.value >= 0
    requires ScanFrom(dates, windowSize, step, s) == Ok(ps)
    ensures forall k :: 0 <= k < |ps| ==> ps[k].0 < |dates|
    ensures ps != [] ==> ps[0].0 == s
    ensures forall k :: 0 <= k < |ps| - 1 ==> ps[k + 1].0 == NextStart(dates, step, ps[k].0)
    decreases |dates| - s
  {
    ScanFromPairs(dates, windowSize, step, s, ps);
    if dates[s] + windowSize <= Last(dates) {
      ScanFromUnfold(dates, windowSize, step, s);
      var next := NextStart(dates, step, s);
      if next != -1 && next < |dates| {
        var rest := ScanFrom(dates, windowSize, step, next).value;
        ScanFromSuccession(dates, windowSize, step, next, rest);
        assert ps == [ps[0]] + rest;
      }
    }
  }

  /** Why the iteration stopped: the window of the next start no longer fits,
      or the step search found nothing. */
  lemma {:induction false} ScanFromStop(dates: seq<int>, windowSize: int, step: Option<int>, s: nat, ps: seq<(nat, nat)>)
    requires StrictlyIncreasing(dates) && s < |dates|
    requires step.Some? ==> step.value >= 0
    requires ScanFrom(dates, windowSize, step, s) == Ok(ps)
    ensures forall k :: 0 <= k < |ps| ==> ps[k].0 < |dates|
    ensures ps == [] ==> dates[s] + windowSize > Last(dates)
    ensures ps != [] ==> var t := NextStart(dates, step, ps[|ps| - 1].0);
      t == -1 || (0 <= t < |dates| && dates[t] + windowSize > Last(dates))
    decreases |dates| - s
  {
    ScanFromPairs(dates, windowSize, step, s, ps);
    if dates[s] + windowSize <= Last(dates) {
      ScanFromUnfold(dates, windowSize, step, s);
      var next := NextStart(dates, step, s);
      if next != -1 && next < |dates| {
        var rest := ScanFrom(dates, windowSize, step, next).value;
        ScanFromStop(dates, windowSize, step, next, rest);
        assert ps == [ps[0]] + rest;
      }
    }
  }

  /** What `slidingWindowIndices(dates, window_size, iter_delta)` yields in full, or raises. */
  function Windows(dates: seq<int>, windowSize: int, step: Option<int>): Result<seq<(nat, nat)>, ScanError>
    requires step.Some? ==> step.value >= 0
  {
    if !StrictlyIncreasing(dates) then Err(NonMonotonic)
    else if |dates| == 0 then Err(IndexOutOfRange)
    else ScanFrom(dates, windowSize, step, 0)
  }

  /** The generator, run to exhaustion. The end search resumes from the previous
      end index, which finds the same index as a search from 0 because end bounds
      never decrease. A missing step search (-1) makes the start date
      `dates[-1]`, the last date, which ends the loop. */
  method SlidingWindowIndices(dates: seq<int>, windowSize: int, step: Option<int>)
      returns (r: Result<seq<(nat, nat)>, ScanError>)
    requires step.Some? ==> step.value >= 0
    ensures r == Windows(dates, windowSize, step)
  {
    if !StrictlyIncreasing(dates) {
      return Err(NonMonotonic);
    }
    if |dates| == 0 {
      return Err(IndexOutOfRange);
    }
    ghost var full := ScanFrom(dates, windowSize, step, 0);
    PrependNil(full);
    var delta := if step.Some? then step.value else 0;
    var startDate := dates[0];
    var lastDate := dates[|dates| - 1];
    var startIdx: int := 0;
    var endIdx: int := 0;
    var pairs: seq<(nat, nat)> := [];
    while true
      invariant -1 <= startIdx < |dates|
      invariant startDate == if startIdx == -1 then lastDate else dates[startIdx]
      invariant 0 <= endIdx <= |dates|
      invariant forall j :: 0 <= j < endIdx ==> dates[j] < startDate + windowSize
      invariant full == Prepend(pairs, if startIdx == -1 then Ok([]) else ScanFrom(dates, windowSize, step, startIdx))
      decreases if startIdx == -1 then 0 else |dates| + 1 - startIdx
    {
      var endDate := startDate + windowSize;
      if endDate > lastDate || startIdx == -1 || endIdx == -1 {
        break;
      }
      FirstIndexResume(dates, endDate, endIdx);
      endIdx := FindIndex(dates, endDate, endIdx);
      FirstIndexSpec(dates, endDate, 0);
      assert dates[|dates| - 1] >= endDate;
      ghost var prev := startIdx;
      ghost var prevPairs := pairs;
      pairs := pairs + [(startIdx, endIdx)];
      if delta != 0 {
        forall j | 0 <= j < startIdx ensures dates[j] < startDate + delta {
          IncreasingPair(dates, j, startIdx);
        }
        FirstIndexResume(dates, startDate + delta, startIdx);
        startIdx := FindIndex(dates, startDate + delta, startIdx);
      } else {
        startIdx := startIdx + 1;
      }
      if startIdx >= |dates| {
        ScanFromUnfold(dates, windowSize, step, prev);
        return Err(IndexOutOfRange);
      }
      assert startIdx == NextStart(dates, step, prev);
      assert pairs == prevPairs + [(prev, FirstIndex(dates, dates[prev] + windowSize, 0))];
      ScanAdvance(dates, windowSize, step, prev, prevPairs, full);
      startDate := if startIdx == -1 then lastDate else dates[startIdx];
    }
    assert startIdx != -1 ==> ScanFrom(dates, windowSize, step, startIdx) == Ok([]);
    assert pairs + [] == pairs;
    r := Ok(pairs);
  }

  // ---------------------------------------------------------------------
  // Properties of the yielded pairs

  /** With a positive window or a real step the generator never fails on a
      non-empty strictly increasing index. */
  lemma {:induction false} ScanFromOk(dates: seq<int>, windowSize: int, step: Option<int>, s: nat)
    requires StrictlyIncreasing(dates) && s < |dates|
    requires step.Some? ==> step.value >= 0
    requires windowSize > 0 || Advances(step)
    ensures ScanFrom(dates, windowSize, step, s).Ok?
    decreases |dates| - s
  {
    if dates[s] + windowSize <= Last(dates) {
      ScanFromUnfold(dates, windowSize, step, s);
      var next := NextStart(dates, step, s);
      if !Advances(step) {
        assert s < |dates| - 1;
      }
      if next != -1 && next < |dates| {
        ScanFromOk(dates, windowSize, step, next);
      }
    }
  }

  lemma WindowsOk(dates: seq<int>, windowSize: int, step: Option<int>)
    requires StrictlyIncreasing(dates) && |dates| > 0
    requires step.Some? ==> step.value >= 0
    requires windowSize > 0 || Advances(step)
    ensures Windows(dates, windowSize, step).Ok?
  {
    ScanFromOk(dates, windowSize, step, 0);
  }

  /** With a window size of zero or less and no step, the start index walks off
      the end: `dates[start_idx]` raises. */
  lemma {:induction false} ScanFromPastEnd(dates: seq<int>, windowSize: int, step: Option<int>, s: nat)
    requires StrictlyIncreasing(dates) && s < |dates|
    requires step.Some? ==> step.value >= 0
    requires windowSize <= 0 && !Advances(step)
    ensures ScanFrom(dates, windowSize, step, s) == Err(IndexOutOfRange)
    decreases |dates| - s
  {
    IncreasingAll(dates);
    assert dates[s] + windowSize <= Last(dates);
    if s + 1 < |dates| {
      ScanFromPastEnd(dates, windowSize, step, s + 1);
    }
  }

  lemma WindowsPastEnd(dates: seq<int>, windowSize: int, step: Option<int>)
    requires step.Some? ==> step.value >= 0
    requires windowSize <= 0 && !Advances(step)
    ensures Windows(dates, windowSize, step).Err?
    ensures StrictlyIncreasing(dates) ==> Windows(dates, windowSize, step) == Err(IndexOutOfRange)
  {
    if StrictlyIncreasing(dates) && |dates| > 0 {
      ScanFromPastEnd(dates, windowSize, step, 0);
    }
  }

  /** A non-strictly-increasing index raises before anything is yielded. */
  lemma WindowsNonMonotonic(dates: seq<int>, windowSize: int, step: Option<int>, i: nat)
    requires step.Some? ==> step.value >= 0
    requires 0 < i < |dates| && dates[i] <= dates[i - 1]
    ensures Windows(dates, windowSize, step) == Err(NonMonotonic)
  {
  }

  /** Every yielded pair is in bounds, with start <= end for a non-negative
      window size and start < end for a positive one; end is the smallest
      index whose date reaches the start date plus the window size, and no
      window is yielded whose bound lies past the last date. */
  lemma WindowBounds(dates: seq<int>, windowSize: int, step: Option<int>, ps: seq<(nat, nat)>, k: nat)
    requires step.Some? ==> step.value >= 0
    requires Windows(dates, windowSize, step) == Ok(ps) && k < |ps|
    ensures ps[k].0 < |dates| && ps[k].1 < |dates|
    ensures dates[ps[k].0] + windowSize <= dates[|dates| - 1]
    ensures dates[ps[k].1] >= dates[ps[k].0] + windowSize
    ensures forall j :: 0 <= j < ps[k].1 ==> dates[j] < dates[ps[k].0] + windowSize
    ensures windowSize >= 0 ==> ps[k].0 <= ps[k].1
    ensures windowSize > 0 ==> ps[k].0 < ps[k].1
  {
    ScanFromPairs(dates, windowSize, step, 0, ps);
    var s, e := ps[k].0, ps[k].1;
    FirstIndexSpec(dates, dates[s] + windowSize, 0);
    assert dates[|dates| - 1] >= dates[s] + windowSize;
    if windowSize >= 0 && e < s {
      IncreasingPair(dates, e, s);
    }
  }

  /** Start indices strictly increase. */
  lemma StartsIncrease(dates: seq<int>, windowSize: int, step: Option<int>, ps: seq<(nat, nat)>, k: nat)
    requires step.Some? ==> step.value >= 0
    requires Windows(dates, windowSize, step) == Ok(ps) && k + 1 < |ps|
    ensures ps[k].0 < ps[k + 1].0
  {
    ScanFromSuccession(dates, windowSize, step, 0, ps);
    var s, t := ps[k].0, ps[k + 1].0;
    if Advances(step) {
      FirstIndexSpec(dates, dates[s] + step.value, 0);
    }
    if Advances(step) && t <= s {
      if t < s {
        IncreasingPair(dates, t, s);
      }
    }
  }

  /** Without a step the k-th window starts at index k. */
  lemma {:induction false} StartsWithoutStep(dates: seq<int>, windowSize: int, step: Option<int>, ps: seq<(nat, nat)>, k: nat)
    requires step.Some? ==> step.value >= 0
    requires !Advances(step)
    requires Windows(dates, windowSize, step) == Ok(ps) && k < |ps|
    ensures ps[k].0 == k
  {
    ScanFromSuccession(dates, windowSize, step, 0, ps);
    if k > 0 {
      StartsWithoutStep(dates, windowSize, step, ps, k - 1);
    }
  }

  /** With a step, each later start is the smallest index whose date is at
      least the previous start date plus the step. */
  lemma StartsWithStep(dates: seq<int>, windowSize: int, step: Option<int>, ps: seq<(nat, nat)>, k: nat)
    requires step.Some? ==> step.value >= 0
    requires Advances(step)
    requires Windows(dates, windowSize, step) == Ok(ps) && k + 1 < |ps|
    ensures ps[k].0 < |dates| && ps[k + 1].0 < |dates|
    ensures dates[ps[k + 1].0] >= dates[ps[k].0] + step.value
    ensures forall j :: 0 <= j < ps[k + 1].0 ==> dates[j] < dates[ps[k].0] + step.value
  {
    ScanFromSuccession(dates, windowSize, step, 0, ps);
    FirstIndexSpec(dates, dates[ps[k].0] + step.value, 0);
  }

  /** With a step, the iteration starts at index 0 and ends when the step
      search finds nothing or when the window of the index it finds no longer
      fits before the last date. */
  lemma StepStop(dates: seq<int>, windowSize: int, step: Option<int>, ps: seq<(nat, nat)>)
    requires step.Some? ==> step.value >= 0
    requires Advances(step)
    requires Windows(dates, windowSize, step) == Ok(ps) && |ps| > 0
    ensures ps[0].0 == 0 && ps[|ps| - 1].0 < |dates|
    ensures var t := FirstIndex(dates, dates[ps[|ps| - 1].0] + step.value, 0);
      t == -1 || dates[t] + windowSize > dates[|dates| - 1]
  {
    ScanFromSuccession(dates, windowSize, step, 0, ps);
    ScanFromStop(dates, windowSize, step, 0, ps);
  }

  /** An index whose first window does not fit yields nothing. */
  lemma NothingFits(dates: seq<int>, windowSize: int, step: Option<int>)
    requires step.Some? ==> step.value >= 0
    requires StrictlyIncreasing(dates) && |dates| > 0
    ensures Windows(dates, windowSize, step) == Ok([]) <==> dates[0] + windowSize > dates[|dates| - 1]
  {
    if Windows(dates, windowSize, step) == Ok([]) {
      ScanFromStop(dates, windowSize, step, 0, []);
    }
  }
}
