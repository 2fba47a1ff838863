/** Samples, flag cells, the flagger interface and the table that holds one
    column per variable over a shared timestamp index. */
module Frames {
  import opened Wrappers

  /** A variable (column) name. */
  type Name = string

  /** A data sample: missing (NaN) or a number. */
  datatype Value = NaN | Num(x: real)

  /** A flag: an ordinal severity. */
  type Flag = int

  /** A flag cell: missing (NaN, not yet initialised) or a flag. */
  type Cell = Option<Flag>

  /** The flagger as the engine sees it: the flag written when a cell is
      initialised, the "is flagged" predicate, and the update that setting a
      flag applies to one cell (which carries the flagger's set policy). */
  datatype Flagger = Flagger(noFlag: Flag, isFlagged: Cell -> bool, setFlag: Cell -> Cell)

  /** `a - b` on samples: missing if either side is. */
  function Minus(a: Value, b: Value): (r: Value)
    ensures r.Num? <==> a.Num? && b.Num?
    ensures r.Num? ==> r.x + b.x == a.x
  {
    if a.Num? && b.Num? then Num(a.x - b.x) else NaN
  }

  // ---------------------------------------------------------------------
  // Label slicing `frame.loc[start:end]` on a strictly increasing index

  /** Number of index entries from position i on that lie strictly before
      the date d. */
  function CountBefore(dates: seq<int>, d: int, i: nat): (c: nat)
    requires i <= |dates|
    ensures c <= |dates| - i
    decreases |dates| - i
  {
    if i == |dates| then 0
    else (if dates[i] < d then 1 else 0) + CountBefore(dates, d, i + 1)
  }

  /** Number of index entries from position i on that lie at or before the
      date d. */
  function CountUpTo(dates: seq<int>, d: int, i: nat): (c: nat)
    requires i <= |dates|
    ensures c <= |dates| - i
    decreases |dates| - i
  {
    if i == |dates| then 0
    else (if dates[i] <= d then 1 else 0) + CountUpTo(dates, d, i + 1)
  }

  predicate Increasing(dates: seq<int>) {
    forall i, j :: 0 <= i < j < |dates| ==> dates[i] < dates[j]
  }

  /** On an increasing index the entries before d form a prefix. */
  lemma {:induction false} CountBeforeSplit(dates: seq<int>, d: int, i: nat)
    requires Increasing(dates) && i <= |dates|
    ensures forall j :: i <= j < |dates| ==> (j < i + CountBefore(dates, d, i) <==> dates[j] < d)
    decreases |dates| - i
  {
    if i < |dates| {
      CountBeforeSplit(dates, d, i + 1);
    }
  }

  lemma {:induction false} CountUpToSplit(dates: seq<int>, d: int, i: nat)
    requires Increasing(dates) && i <= |dates|
    ensures forall j :: i <= j < |dates| ==> (j < i + CountUpTo(dates, d, i) <==> dates[j] <= d)
    decreases |dates| - i
  {
    if i < |dates| {
      CountUpToSplit(dates, d, i + 1);
    }
  }

  /** The rows `[lo, hi)` that `loc[start:end]` selects: both ends inclusive,
      and nothing when start > end. */
  function Span(dates: seq<int>, start: int, end: int): (r: (nat, nat))
    ensures r.0 <= r.1 <= |dates|
  {
    var lo := CountBefore(dates, start, 0);
    var hi := CountUpTo(dates, end, 0);
    (lo, if hi < lo then lo else hi)
  }

  /** The span holds exactly the rows whose date lies in [start, end]. */
  lemma SpanExact(dates: seq<int>, start: int, end: int)
    requires Increasing(dates)
    ensures Span(dates, start, end).0 <= Span(dates, start, end).1 <= |dates|
    ensures forall i :: 0 <= i < |dates| ==>
      (Span(dates, start, end).0 <= i < Span(dates, start, end).1 <==> start <= dates[i] <= end)
  {
    CountBeforeSplit(dates, start, 0);
    CountUpToSplit(dates, end, 0);
  }

  // ---------------------------------------------------------------------
  // Columns and windows of columns

  /** Every column of the map has n rows. */
  predicate Rectangular<T>(cols: map<Name, seq<T>>, n: nat) {
    forall c :: c in cols ==> |cols[c]| == n
  }

  /** The rows [lo, hi) of every column. */
  function Slice<T>(cols: map<Name, seq<T>>, lo: nat, hi: nat): (w: map<Name, seq<T>>)
    requires lo <= hi
    ensures w.Keys == cols.Keys
  {
    map c | c in cols :: if hi <= |cols[c]| then cols[c][lo..hi] else []
  }

  /** A slice of a table with n rows holds rows [lo, hi) of every column. */
  lemma SliceRows<T>(cols: map<Name, seq<T>>, n: nat, lo: nat, hi: nat)
    requires lo <= hi <= n && Rectangular(cols, n)
    ensures Rectangular(Slice(cols, lo, hi), hi - lo)
    ensures forall c, i :: c in cols && lo <= i < hi ==> Slice(cols, lo, hi)[c][i - lo] == cols[c][i]
  {
  }

  /** Writing a window back: every column of chunk replaces the rows starting
      at lo; rows outside the window and columns absent from chunk are kept. */
  function Splice<T>(cols: map<Name, seq<T>>, lo: nat, chunk: map<Name, seq<T>>): (r: map<Name, seq<T>>)
    ensures r.Keys == cols.Keys
  {
    map c | c in cols ::
      if c in chunk && lo + |chunk[c]| <= |cols[c]|
      then cols[c][..lo] + chunk[c] + cols[c][lo + |chunk[c]|..]
      else cols[c]
  }

  /** Write-back touches the window [lo, hi) and nothing else. */
  lemma SpliceConfined<T>(cols: map<Name, seq<T>>, n: nat, lo: nat, hi: nat, chunk: map<Name, seq<T>>)
    requires lo <= hi <= n && Rectangular(cols, n)
    requires chunk.Keys == cols.Keys && Rectangular(chunk, hi - lo)
    ensures Rectangular(Splice(cols, lo, chunk), n)
    ensures forall c, i :: c in cols && 0 <= i < n ==>
      Splice(cols, lo, chunk)[c][i] == if lo <= i < hi then chunk[c][i - lo] else cols[c][i]
  {
    forall c, i | c in cols && 0 <= i < n
      ensures Splice(cols, lo, chunk)[c][i] == if lo <= i < hi then chunk[c][i - lo] else cols[c][i]
    {
      var head := cols[c][..lo] + chunk[c];
      var col := head + cols[c][hi..];
      assert |head| == hi;
      assert Splice(cols, lo, chunk)[c] == col;
      if i < lo {
        assert col[i] == head[i] == cols[c][..lo][i];
      } else if i < hi {
        assert col[i] == head[i] == chunk[c][i - lo];
      } else {
        assert col[i] == cols[c][hi..][i - hi];
      }
    }
  }

  /** A window handed to a test: its number of rows, the data columns and
      the flag columns restricted to those rows. */
  datatype Window = Window(height: nat, data: map<Name, seq<Value>>, flags: map<Name, seq<Cell>>)

  /** A result window has the rows and the columns of the window it came from. */
  predicate Fits(r: Window, w: Window) {
    && r.height == w.height
    && r.data.Keys == w.data.Keys && r.flags.Keys == w.flags.Keys
    && Rectangular(r.data, w.height) && Rectangular(r.flags, w.height)
  }

  /** A table: the columns of a data frame (or of a flag frame) over an index
      of `height` rows; `.loc` assignment replaces a window of rows in place. */
  class Table<T> {
    var columns: map<Name, seq<T>>
    const height: nat

    ghost predicate Valid()
      reads this
    {
      Rectangular(columns, height)
    }

    constructor(columns: map<Name, seq<T>>, height: nat)
      requires Rectangular(columns, height)
      ensures this.columns == columns && this.height == height
      ensures Valid()
    {
      this.columns := columns;
      this.height := height;
    }

    /** `frame.loc[start:end]` as the rows [lo, hi). */
    function Rows(lo: nat, hi: nat): (w: map<Name, seq<T>>)
      reads this
      requires Valid() && lo <= hi <= height
      ensures w.Keys == columns.Keys && Rectangular(w, hi - lo)
    {
      SliceRows(columns, height, lo, hi);
      Slice(columns, lo, hi)
    }

    /** `frame.loc[start:end] = chunk` with the rows [lo, hi). */
    method Assign(lo: nat, hi: nat, chunk: map<Name, seq<T>>)
      requires Valid() && lo <= hi <= height
      requires chunk.Keys == columns.Keys && Rectangular(chunk, hi - lo)
      modifies this
      ensures Valid()
      ensures columns == Splice(old(columns), lo, chunk)
    {
      SpliceConfined(columns, height, lo, hi, chunk);
      columns := Splice(columns, lo, chunk);
    }
  }
}
