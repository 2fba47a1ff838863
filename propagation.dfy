/** Forward flag propagation (`flagNext`) and the period-to-ticks conversion
    of core.py. */
module Propagation {
  import opened Wrappers
  import opened Frames

  /** `_periodToTicks(period, freq)`: ceil(period / freq), both in index ticks. */
  function PeriodToTicks(period: int, freq: int): (k: int)
    requires freq > 0
    ensures k * freq >= period
    ensures (k - 1) * freq < period
  {
    var q := (-period) / freq;
    assert (-period) == q * freq + (-period) % freq;
    -q
  }

  // ---------------------------------------------------------------------
  // Specification: the state after each round of the offset loop

  /** Round nn of the offset loop on the flags f: a position that lies nn past
      a trigger (a position flagged in the original flags orig) and is still
      unflagged takes the value at that trigger. */
  ghost function Round(isFlagged: Cell -> bool, orig: seq<Cell>, f: seq<Cell>, nn: nat): seq<Cell>
    requires |f| == |orig|
  {
    seq(|f|, j requires 0 <= j < |f| =>
      if nn <= j && isFlagged(orig[j - nn]) && !isFlagged(f[j]) then f[j - nn] else f[j])
  }

  /** The flags after rounds 1..r. */
  ghost function Rounds(isFlagged: Cell -> bool, orig: seq<Cell>, r: nat): (f: seq<Cell>)
    ensures |f| == |orig|
  {
    if r == 0 then orig else Round(isFlagged, orig, Rounds(isFlagged, orig, r - 1), r)
  }

  // ---------------------------------------------------------------------
  // Reference: every empty cell takes its nearest preceding trigger

  /** The nearest flagged position among the n positions before j, if any. */
  function Nearest(isFlagged: Cell -> bool, f: seq<Cell>, j: nat, n: nat): (r: Option<nat>)
    requires j < |f|
    ensures r.Some? ==> r.value < j
  {
    if n == 0 then None
    else match Nearest(isFlagged, f, j, n - 1)
      case Some(i) => Some(i)
      case None => if n <= j && isFlagged(f[j - n]) then Some(j - n) else None
  }

  lemma {:induction false} NearestSpec(isFlagged: Cell -> bool, f: seq<Cell>, j: nat, n: nat)
    requires j < |f|
    ensures var r := Nearest(isFlagged, f, j, n);
      && (r.Some? ==> j - n <= r.value < j && isFlagged(f[r.value]))
      && (r.Some? ==> forall k :: r.value < k < j ==> !isFlagged(f[k]))
      && (r.None? <==> forall k :: j - n <= k < j && 0 <= k ==> !isFlagged(f[k]))
  {
    if n > 0 {
      NearestSpec(isFlagged, f, j, n - 1);
    }
  }

  /** What `flagNext(flagger, flags, n)` returns: a flagged cell is kept; an
      unflagged one takes the value of the nearest flagged position at most n
      before it, or is kept when there is none. */
  function Propagated(isFlagged: Cell -> bool, f: seq<Cell>, n: nat): (g: seq<Cell>)
    ensures |g| == |f|
  {
    seq(|f|, j requires 0 <= j < |f| =>
      if isFlagged(f[j]) then f[j]
      else match Nearest(isFlagged, f, j, n)
        case Some(i) => f[i]
        case None => f[j])
  }

  /** The round-by-round state is the nearest-trigger closed form. */
  lemma {:induction false} RoundsClosedForm(isFlagged: Cell -> bool, f: seq<Cell>, r: nat)
    ensures Rounds(isFlagged, f, r) == Propagated(isFlagged, f, r)
  {
    if r > 0 {
      RoundsClosedForm(isFlagged, f, r - 1);
      var p := Propagated(isFlagged, f, r - 1);
      var g := Round(isFlagged, f, p, r);
      forall j | 0 <= j < |f|
        ensures g[j] == Propagated(isFlagged, f, r)[j]
      {
        NearestSpec(isFlagged, f, j, r - 1);
        var prev := Nearest(isFlagged, f, j, r - 1);
        if prev.Some? {
          NearestSpec(isFlagged, f, prev.value, r - 1);
        }
        if r <= j && isFlagged(f[j - r]) {
          assert p[j - r] == f[j - r];
        }
      }
    }
  }

  /** A target clipped to the last position is already flagged when its
      round comes, so the clipped write never happens. */
  lemma ClippedTargetFlagged(isFlagged: Cell -> bool, orig: seq<Cell>, nn: nat, i: nat)
    requires nn >= 1 && i < |orig| && isFlagged(orig[i])
    requires i + nn > |orig| - 1
    ensures isFlagged(Propagated(isFlagged, orig, nn - 1)[|orig| - 1])
  {
    var last := |orig| - 1;
    NearestSpec(isFlagged, orig, last, nn - 1);
  }

  // ---------------------------------------------------------------------
  // The in-place operation

  /** `np.where(flagger.isFlagged(flags))[0]`: the flagged positions, ascending. */
  method FlaggedPositions(isFlagged: Cell -> bool, flags: array<Cell>) returns (idx: seq<nat>)
    ensures forall i: nat :: i in idx <==> i < flags.Length && isFlagged(flags[i])
    ensures forall a, b :: 0 <= a < b < |idx| ==> idx[a] < idx[b]
  {
    idx := [];
    var i := 0;
    while i < flags.Length
      invariant 0 <= i <= flags.Length
      invariant forall k: nat :: k in idx <==> k < i && isFlagged(flags[k])
      invariant forall a, b :: 0 <= a < b < |idx| ==> idx[a] < idx[b]
      invariant forall a :: 0 <= a < |idx| ==> idx[a] < i
    {
      if isFlagged(flags[i]) {
        idx := idx + [i];
      }
      i := i + 1;
    }
  }

  /** idx lists exactly the flagged positions of orig. */
  ghost predicate TriggersOf(isFlagged: Cell -> bool, idx: seq<nat>, orig: seq<Cell>) {
    forall i: nat :: i in idx <==> i < |orig| && isFlagged(orig[i])
  }

  /** Round nn applied for the triggers in trigs only. */
  ghost function Partial(isFlagged: Cell -> bool, trigs: seq<nat>, f: seq<Cell>, nn: nat): seq<Cell> {
    seq(|f|, j requires 0 <= j < |f| =>
      if nn <= j && (j - nn) in trigs && !isFlagged(f[j]) then f[j - nn] else f[j])
  }

  lemma NothingToPropagate(isFlagged: Cell -> bool, f: seq<Cell>)
    ensures Propagated(isFlagged, f, 0) == f
  {
    assert forall j :: 0 <= j < |f| ==> Propagated(isFlagged, f, 0)[j] == f[j];
  }

  /** One round of the offset loop: `nn_idx = np.clip(idx + nn, None, len - 1)`,
      then every target unflagged at the start of the round takes the value
      nn positions before it (read before any write of the round). */
  method ApplyRound(isFlagged: Cell -> bool, flags: array<Cell>, idx: seq<nat>, nn: nat, ghost orig: seq<Cell>)
    requires nn >= 1 && |orig| == flags.Length
    requires TriggersOf(isFlagged, idx, orig)
    requires flags[..] == Propagated(isFlagged, orig, nn - 1)
    modifies flags
    ensures flags[..] == Propagated(isFlagged, orig, nn)
  {
    var snapshot := flags[..];
    var k := 0;
    while k < |idx|
      invariant 0 <= k <= |idx|
      invariant flags.Length == |snapshot|
      invariant flags[..] == Partial(isFlagged, idx[..k], snapshot, nn)
    {
      var t := idx[k] + nn;
      var j := if t > flags.Length - 1 then flags.Length - 1 else t;
      assert idx[k] in idx;
      if t > flags.Length - 1 {
        ClippedTargetFlagged(isFlagged, orig, nn, idx[k]);
      }
      if !isFlagged(snapshot[j]) {
        flags[j] := snapshot[j - nn];
      }
      assert idx[..k + 1] == idx[..k] + [idx[k]];
      k := k + 1;
    }
    assert idx[..k] == idx;
    RoundsClosedForm(isFlagged, orig, nn - 1);
    RoundsClosedForm(isFlagged, orig, nn);
  }

  /** `flagNext(flagger, flags, n)`: the trigger positions are fixed first;
      then the rounds nn = 1..n run in increasing order. */
  method FlagNext(isFlagged: Cell -> bool, flags: array<Cell>, n: int)
    modifies flags
    ensures flags[..] == Propagated(isFlagged, old(flags[..]), if n < 0 then 0 else n)
    ensures n <= 0 ==> flags[..] == old(flags[..])
  {
    ghost var orig := flags[..];
    ghost var rounds: nat := if n < 0 then 0 else n;
    var idx := FlaggedPositions(isFlagged, flags);
    assert TriggersOf(isFlagged, idx, orig);
    NothingToPropagate(isFlagged, orig);
    var nn := 1;
    while nn <= n
      invariant 1 <= nn <= rounds + 1
      invariant TriggersOf(isFlagged, idx, orig)
      invariant flags[..] == Propagated(isFlagged, orig, nn - 1)
    {
      ApplyRound(isFlagged, flags, idx, nn, orig);
      nn := nn + 1;
    }
    assert nn - 1 == rounds;
  }

  // ---------------------------------------------------------------------
  // Properties of the result

  /** Cells that nothing reaches are left alone: a flagged cell, and a cell
      with no flagged position among the n before it -- in particular every
      cell before the first trigger and every cell more than n past the last. */
  lemma Untouched(isFlagged: Cell -> bool, f: seq<Cell>, n: nat, j: nat)
    requires j < |f|
    requires isFlagged(f[j]) || forall k :: j - n <= k < j && 0 <= k ==> !isFlagged(f[k])
    ensures Propagated(isFlagged, f, n)[j] == f[j]
  {
    NearestSpec(isFlagged, f, j, n);
  }

  /** A cell ends up flagged exactly when it was flagged or some flagged cell
      lies at most n before it. */
  lemma FlaggedAfter(isFlagged: Cell -> bool, f: seq<Cell>, n: nat, j: nat)
    requires j < |f|
    ensures isFlagged(Propagated(isFlagged, f, n)[j]) <==>
      isFlagged(f[j]) || exists k :: j - n <= k < j && 0 <= k && isFlagged(f[k])
  {
    NearestSpec(isFlagged, f, j, n);
  }

  /** An unflagged cell reached by a trigger takes the value of the nearest one. */
  lemma TakesNearest(isFlagged: Cell -> bool, f: seq<Cell>, n: nat, j: nat, i: nat)
    requires i < j < |f| && j - i <= n
    requires isFlagged(f[i]) && !isFlagged(f[j])
    requires forall k :: i < k < j ==> !isFlagged(f[k])
    ensures Propagated(isFlagged, f, n)[j] == f[i]
  {
    NearestSpec(isFlagged, f, j, n);
  }

  /** A lone trigger at i fills exactly i+1..i+n with its value. */
  lemma SingleTrigger(isFlagged: Cell -> bool, f: seq<Cell>, n: nat, i: nat)
    requires i + n < |f|
    requires forall k :: 0 <= k < |f| ==> (isFlagged(f[k]) <==> k == i)
    ensures forall k :: 0 <= k < |f| ==>
      (isFlagged(Propagated(isFlagged, f, n)[k]) <==> i <= k <= i + n)
    ensures forall k :: i < k <= i + n ==> Propagated(isFlagged, f, n)[k] == f[i]
  {
    forall k | 0 <= k < |f|
      ensures isFlagged(Propagated(isFlagged, f, n)[k]) <==> i <= k <= i + n
      ensures i < k <= i + n ==> Propagated(isFlagged, f, n)[k] == f[i]
    {
      FlaggedAfter(isFlagged, f, n, k);
      if i < k <= i + n {
        TakesNearest(isFlagged, f, n, k, i);
      }
    }
  }

  /** The flag test of a flagger whose unflagged cells are missing. */
  predicate NotNull(c: Cell) {
    c.Some?
  }

  /** Flags set at positions 0, 1 and 2 and propagated over 4 values cover
      exactly the positions 0..6. */
  lemma FillScenario(f: seq<Cell>)
    requires |f| >= 7
    requires forall k :: 0 <= k < |f| ==> (f[k].Some? <==> k < 3)
    ensures forall k :: 0 <= k < |f| ==> (Propagated(NotNull, f, 4)[k].Some? <==> k <= 6)
  {
    forall k | 0 <= k < |f|
      ensures Propagated(NotNull, f, 4)[k].Some? <==> k <= 6
    {
      FlaggedAfter(NotNull, f, 4, k);
      if 3 <= k <= 6 {
        assert f[2].Some?;
      }
    }
  }

  /** With flag 1 at every third position from 0 and flag 2 at every third
      from 2, propagating over 4 values fills every empty cell with 1. */
  lemma OverwriteScenario(f: seq<Cell>)
    requires forall k :: 0 <= k < |f| ==>
      f[k] == if k % 3 == 0 then Some(1) else if k % 3 == 2 then Some(2) else None
    ensures forall k :: 0 <= k < |f| && f[k].None? ==> Propagated(NotNull, f, 4)[k] == Some(1)
  {
    forall k | 0 <= k < |f| && f[k].None?
      ensures Propagated(NotNull, f, 4)[k] == Some(1)
    {
      assert k % 3 == 1;
      assert (k - 1) % 3 == 0;
      TakesNearest(NotNull, f, 4, k, k - 1);
    }
  }
}
