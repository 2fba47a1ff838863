/** The scheduler of saqc/core/core.py: the checks on the run's inputs, the
    variables that get a flag column, and `runner`, which applies every test
    column to every configuration row and threads the flagger through. */
module SaqcCore {
  import opened Wrappers
  import opened Frames

  // ---------------------------------------------------------------------
  // `_check_input`

  /** What the checks look at in the flags argument, when one is given:
      whether it is a data frame, whether its index is a MultiIndex, and
      its number of rows. */
  datatype FlagsShape = FlagsShape(isFrame: bool, indexMulti: bool, rows: nat)

  /** What the checks look at: the types of data and flagger, whether the
      index or the columns of data are a MultiIndex, the rows of data, and
      the flags argument (None for `flags=None`). */
  datatype InputShape = InputShape(dataIsFrame: bool, indexMulti: bool, columnsMulti: bool,
                                   flaggerIsBase: bool, rows: nat, flags: Option<FlagsShape>)

  /** The checks of `_check_input`, in the order they run; each names the
      message of the error it raises. `FlagsIndex` is the check on the index
      of flags that the corrected checks add. */
  datatype Check = DataType | DataIndex | DataColumns | FlaggerType | FlagsType | FlagsIndex | FlagsLength

  /** The message raised by each check. */
  function Message(c: Check): string {
    match c
    case DataType => "data must be of type pd.DataFrame"
    case DataIndex => "the index of data is not allowed to be a multiindex"
    case DataColumns => "the columns of data is not allowed to be a multiindex"
    case FlaggerType => "flagger must be of type [CategoricalBaseFlagger, SimpleFlagger, DmpFlagger] or any inherit class from BaseFlagger"
    case FlagsType => "flags must be of type pd.DataFrame"
    case FlagsIndex => "the index of flags is not allowed to be a multiindex"
    case FlagsLength => "the index of flags and data has not the same length"
  }

  datatype InputError = TypeError(check: Check) | ValueError(check: Check)

  /** data is a plain data frame and the flagger a `BaseFlagger`. */
  predicate TypesOk(s: InputShape) {
    s.dataIsFrame && !s.indexMulti && !s.columnsMulti && s.flaggerIsBase
  }

  /** The flags argument, when given, is a data frame as long as data. */
  predicate FlagsOk(s: InputShape) {
    s.flags.Some? ==> s.flags.value.isFrame && s.flags.value.rows == s.rows
  }

  /** `_check_input(data, flagger, flags)`: None when it returns, else the
      error it raises. The checks run in the order written, so the first
      failing one decides; with `flags=None` nothing about flags is checked. */
  function CheckInput(s: InputShape): (r: Option<InputError>)
    ensures r.None? <==> TypesOk(s) && FlagsOk(s)
    ensures !TypesOk(s) ==> r.Some? && r.value.TypeError?
    ensures (r.Some? && r.value.ValueError?) <==> TypesOk(s) && s.flags.Some? && s.flags.value.isFrame && s.flags.value.rows != s.rows
  {
    if !s.dataIsFrame then Some(TypeError(DataType))
    else if s.indexMulti then Some(TypeError(DataIndex))
    else if s.columnsMulti then Some(TypeError(DataColumns))
    else if !s.flaggerIsBase then Some(TypeError(FlaggerType))
    else if s.flags.None? then None
    else if !s.flags.value.isFrame then Some(TypeError(FlagsType))
    else if s.indexMulti then Some(TypeError(DataIndex))
    else if s.rows != s.flags.value.rows then Some(ValueError(FlagsLength))
    else None
  }

  /** The second MultiIndex check looks at the index of data again, which
      the first one has already passed: a flags frame with a MultiIndex is
      accepted exactly as a plain one. */
  lemma CheckInputIgnoresFlagsIndex(s: InputShape)
    requires s.flags.Some?
    ensures CheckInput(s) == CheckInput(s.(flags := Some(s.flags.value.(indexMulti := !s.flags.value.indexMulti))))
  {
  }

  /** The checks with the second MultiIndex check on the index of flags. */
  function CheckInputFixed(s: InputShape): (r: Option<InputError>)
    ensures r.None? <==> TypesOk(s) && FlagsOk(s) && (s.flags.Some? ==> !s.flags.value.indexMulti)
    ensures s.flags.Some? && s.flags.value.isFrame && s.flags.value.indexMulti ==> r.Some? && r.value.TypeError?
    ensures s.flags.None? || !s.flags.value.indexMulti ==> r == CheckInput(s)
  {
    if !TypesOk(s) || s.flags.None? || !s.flags.value.isFrame then CheckInput(s)
    else if s.flags.value.indexMulti then Some(TypeError(FlagsIndex))
    else CheckInput(s)
  }

  // ---------------------------------------------------------------------
  // `collectVariables`

  /** A test expression, as written in a test cell. */
  type Expr = string

  /** A configuration row: the variable, whether its `assign` cell is the
      object True, the window dates and one (possibly empty) test
      expression per test column. */
  datatype ConfigRow = ConfigRow(varname: Name, assign: bool, start: int, end: int, tests: seq<Option<Expr>>)

  /** What `collectVariables` has appended after the first k rows, given
      the column names of data. */
  function Collected(rows: seq<ConfigRow>, names: set<Name>, k: nat): (r: seq<Name>)
    requires k <= |rows|
    ensures |r| <= k
  {
    if k == 0 then []
    else
      var prev := Collected(rows, names, k - 1);
      var v := rows[k - 1].varname;
      if v in names || (v !in prev && rows[k - 1].assign) then prev + [v] else prev
  }

  /** The number of rows among the first k that name v. */
  function Naming(rows: seq<ConfigRow>, v: Name, k: nat): (m: nat)
    requires k <= |rows|
    ensures m <= k
  {
    if k == 0 then 0 else Naming(rows, v, k - 1) + if rows[k - 1].varname == v then 1 else 0
  }

  /** Some row among the first k names v and has `assign` set to True. */
  predicate Assigned(rows: seq<ConfigRow>, v: Name, k: nat)
    requires k <= |rows|
  {
    exists i :: 0 <= i < k && rows[i].varname == v && rows[i].assign
  }

  /** A column of data is listed once per row naming it, duplicates kept; a
      name that is not a column of data is listed once if some row naming
      it assigns, and not at all otherwise. */
  lemma {:induction false} CollectedCounts(rows: seq<ConfigRow>, names: set<Name>, k: nat, v: Name)
    requires k <= |rows|
    ensures v in names ==> multiset(Collected(rows, names, k))[v] == Naming(rows, v, k)
    ensures v !in names ==> multiset(Collected(rows, names, k))[v] == if Assigned(rows, v, k) then 1 else 0
  {
    if k > 0 {
      CollectedCounts(rows, names, k - 1, v);
      var prev := Collected(rows, names, k - 1);
      var w := rows[k - 1].varname;
      if Assigned(rows, v, k) && !Assigned(rows, v, k - 1) {
        assert rows[k - 1].varname == v && rows[k - 1].assign;
      }
      if Assigned(rows, v, k - 1) {
        var i :| 0 <= i < k - 1 && rows[i].varname == v && rows[i].assign;
        assert 0 <= i < k && rows[i].varname == v && rows[i].assign;
      }
      if w in names || (w !in prev && rows[k - 1].assign) {
        assert multiset(prev + [w]) == multiset(prev) + multiset{w};
      }
    }
  }

  /** Everything listed is the variable of some row. */
  lemma {:induction false} CollectedNamed(rows: seq<ConfigRow>, names: set<Name>, k: nat)
    requires k <= |rows|
    ensures forall v :: v in Collected(rows, names, k) ==> exists i :: 0 <= i < k && rows[i].varname == v
  {
    if k > 0 {
      CollectedNamed(rows, names, k - 1);
      forall v | v in Collected(rows, names, k)
        ensures exists i :: 0 <= i < k && rows[i].varname == v
      {
        if v in Collected(rows, names, k - 1) {
          var i :| 0 <= i < k - 1 && rows[i].varname == v;
          assert 0 <= i < k && rows[i].varname == v;
        } else {
          assert rows[k - 1].varname == v;
        }
      }
    }
  }

  /** `collectVariables(meta, data)`: the list, in row order, built by
      appending. */
  method CollectVariables(rows: seq<ConfigRow>, names: set<Name>) returns (flags: seq<Name>)
    ensures flags == Collected(rows, names, |rows|)
  {
    flags := [];
    for k := 0 to |rows|
      invariant flags == Collected(rows, names, k)
    {
      var v := rows[k].varname;
      if v in names {
        flags := flags + [v];
      } else if v !in flags && rows[k].assign {
        flags := flags + [v];
      }
    }
  }

  // ---------------------------------------------------------------------
  // `runner` as a left fold: test columns outer, rows inner

  /** `evalExpression(flag_test, data=dchunk, field=varname,
      flagger=flagger_chunk, nodata=nodata)`: the data window and the
      flagger's window after the test, or None when it raises. */
  type Evaluator = (Expr, Window, Name) -> Option<Window>

  /** The data columns and the flagger's flag columns. */
  datatype SaqcState = SaqcState(data: map<Name, seq<Value>>, flags: map<Name, seq<Cell>>)

  /** Data and flags both have n rows; their columns may differ. */
  predicate Shaped(st: SaqcState, n: nat) {
    Rectangular(st.data, n) && Rectangular(st.flags, n)
  }

  datatype SaqcError =
    | InvalidInput(error: InputError)
    | EvalFailed                                        // the test raised
    | BadWindow                                         // a window of another shape came back

  /** `data.loc[start_date:end_date] = dchunk` and
      `flagger = flagger.setFlagger(flagger_chunk_result)` over the rows [lo, hi). */
  function SaqcWriteBack(st: SaqcState, n: nat, lo: nat, hi: nat, out: Window): (r: SaqcState)
    requires lo <= hi <= n && Shaped(st, n)
    requires out.data.Keys == st.data.Keys && out.flags.Keys == st.flags.Keys
    requires Rectangular(out.data, hi - lo) && Rectangular(out.flags, hi - lo)
    ensures Shaped(r, n) && r.data.Keys == st.data.Keys && r.flags.Keys == st.flags.Keys
  {
    SpliceConfined(st.data, n, lo, hi, out.data);
    SpliceConfined(st.flags, n, lo, hi, out.flags);
    SaqcState(Splice(st.data, lo, out.data), Splice(st.flags, lo, out.flags))
  }

  /** The test of a row on its window [lo, hi): slice data and flagger,
      evaluate, write both back. */
  function SaqcTest(eval: Evaluator, n: nat, st: SaqcState, v: Name, e: Expr, lo: nat, hi: nat): (r: Result<SaqcState, SaqcError>)
    requires lo <= hi <= n && Shaped(st, n)
    ensures r.Ok? ==> Shaped(r.value, n) && r.value.data.Keys == st.data.Keys && r.value.flags.Keys == st.flags.Keys
  {
    var w := Window(hi - lo, Slice(st.data, lo, hi), Slice(st.flags, lo, hi));
    match eval(e, w, v)
    case None => Err(EvalFailed)
    case Some(out) =>
      if Fits(out, w) then Ok(SaqcWriteBack(st, n, lo, hi, out)) else Err(BadWindow)
  }

  /** Whether the row is skipped in test column c: an empty cell, a variable
      in neither data nor the flagger, or an empty `data.loc[start:end]`
      (no rows, or no columns at all). */
  predicate Skipped(dates: seq<int>, st: SaqcState, row: ConfigRow, c: nat)
    requires c < |row.tests|
  {
    || row.tests[c].None?
    || (row.varname !in st.data && row.varname !in st.flags)
    || Span(dates, row.start, row.end).0 == Span(dates, row.start, row.end).1
    || |st.data| == 0
  }

  /** One row of one test column (the body of the inner loop). */
  function SaqcRowStep(eval: Evaluator, dates: seq<int>, st: SaqcState, row: ConfigRow, c: nat): (r: Result<SaqcState, SaqcError>)
    requires Shaped(st, |dates|) && c < |row.tests|
    ensures Skipped(dates, st, row, c) ==> r == Ok(st)
    ensures r.Ok? ==> Shaped(r.value, |dates|) && r.value.data.Keys == st.data.Keys && r.value.flags.Keys == st.flags.Keys
  {
    if Skipped(dates, st, row, c) then Ok(st)
    else
      var span := Span(dates, row.start, row.end);
      SaqcTest(eval, |dates|, st, row.varname, row.tests[c].value, span.0, span.1)
  }

  /** Every row has a cell in each of the width test columns. */
  predicate WellFormedConfig(width: nat, rows: seq<ConfigRow>) {
    forall row :: row in rows ==> |row.tests| == width
  }

  /** Rows 0..k-1 of test column c. */
  function SaqcRows(eval: Evaluator, dates: seq<int>, st: SaqcState, rows: seq<ConfigRow>, c: nat, k: nat): (r: Result<SaqcState, SaqcError>)
    requires Shaped(st, |dates|) && k <= |rows|
    requires forall row :: row in rows ==> c < |row.tests|
    ensures r.Ok? ==> Shaped(r.value, |dates|) && r.value.data.Keys == st.data.Keys && r.value.flags.Keys == st.flags.Keys
  {
    if k == 0 then Ok(st)
    else match SaqcRows(eval, dates, st, rows, c, k - 1)
      case Err(e) => Err(e)
      case Ok(s) => SaqcRowStep(eval, dates, s, rows[k - 1], c)
  }

  /** `testcol.dropna().empty`. */
  predicate Untested(rows: seq<ConfigRow>, c: nat)
    requires forall row :: row in rows ==> c < |row.tests|
  {
    forall row :: row in rows ==> row.tests[c].None?
  }

  /** Test columns 0..k-1; a column without any test is passed over. */
  function SaqcColumns(eval: Evaluator, dates: seq<int>, st: SaqcState, rows: seq<ConfigRow>, k: nat): (r: Result<SaqcState, SaqcError>)
    requires Shaped(st, |dates|)
    requires forall row :: row in rows ==> k <= |row.tests|
    ensures r.Ok? ==> Shaped(r.value, |dates|) && r.value.data.Keys == st.data.Keys && r.value.flags.Keys == st.flags.Keys
  {
    if k == 0 then Ok(st)
    else match SaqcColumns(eval, dates, st, rows, k - 1)
      case Err(e) => Err(e)
      case Ok(s) => if Untested(rows, k - 1) then Ok(s) else SaqcRows(eval, dates, s, rows, k - 1, |rows|)
  }

  /** `flagger.initFlags(pd.DataFrame(index=data.index, columns=flag_cols))`:
      one column per listed name, every cell unflagged. */
  function InitFlags(names: seq<Name>, n: nat, unflagged: Flag): (f: map<Name, seq<Cell>>)
    ensures f.Keys == set v | v in names
    ensures Rectangular(f, n)
    ensures forall v, i :: v in f && 0 <= i < n ==> f[v][i] == Some(unflagged)
  {
    map v | v in names :: seq(n, _ => Some(unflagged))
  }

  /** The flagger a run starts from: fresh flags for the collected
      variables, or the given flags. */
  function StartFlags(flagger: Flagger, rows: seq<ConfigRow>, data: map<Name, seq<Value>>, n: nat,
                      given: Option<map<Name, seq<Cell>>>): (f: map<Name, seq<Cell>>)
  {
    match given
    case None => InitFlags(Collected(rows, data.Keys, |rows|), n, flagger.noFlag)
    case Some(g) => g
  }

  /** The whole run: the input checks, the flagger set up, then the test
      columns. */
  function SaqcRun(shape: InputShape, flagger: Flagger, eval: Evaluator, dates: seq<int>, rows: seq<ConfigRow>,
                   width: nat, data: map<Name, seq<Value>>, given: Option<map<Name, seq<Cell>>>): (r: Result<SaqcState, SaqcError>)
    requires WellFormedConfig(width, rows) && Rectangular(data, |dates|) && shape.rows == |dates|
    requires given.Some? <==> shape.flags.Some?
    requires given.Some? ==> Rectangular(given.value, shape.flags.value.rows)
    ensures CheckInput(shape).Some? ==> r == Err(InvalidInput(CheckInput(shape).value))
    ensures r.Ok? ==> r.value.data.Keys == data.Keys
  {
    match CheckInput(shape)
    case Some(e) => Err(InvalidInput(e))
    case None =>
      SaqcColumns(eval, dates, SaqcState(data, StartFlags(flagger, rows, data, |dates|, given)), rows, width)
  }

  // ---------------------------------------------------------------------
  // Properties of the run

  /** Row k runs on the state rows 0..k-1 left. */
  lemma SaqcRowsNext(eval: Evaluator, dates: seq<int>, st: SaqcState, rows: seq<ConfigRow>, c: nat, k: nat)
    requires Shaped(st, |dates|) && k < |rows|
    requires forall row :: row in rows ==> c < |row.tests|
    requires SaqcRows(eval, dates, st, rows, c, k).Ok?
    ensures rows[k] in rows
    ensures SaqcRows(eval, dates, st, rows, c, k + 1) == SaqcRowStep(eval, dates, SaqcRows(eval, dates, st, rows, c, k).value, rows[k], c)
  {
  }

  /** An error stops the rows that follow. */
  lemma {:induction false} SaqcRowsStops(eval: Evaluator, dates: seq<int>, st: SaqcState, rows: seq<ConfigRow>, c: nat, k: nat, m: nat)
    requires Shaped(st, |dates|) && k <= m <= |rows|
    requires forall row :: row in rows ==> c < |row.tests|
    requires SaqcRows(eval, dates, st, rows, c, k).Err?
    ensures SaqcRows(eval, dates, st, rows, c, m) == SaqcRows(eval, dates, st, rows, c, k)
    decreases m - k
  {
    if k < m {
      SaqcRowsStops(eval, dates, st, rows, c, k, m - 1);
    }
  }

  /** An error stops the test columns that follow. */
  lemma {:induction false} SaqcColumnsStops(eval: Evaluator, dates: seq<int>, st: SaqcState, rows: seq<ConfigRow>, k: nat, m: nat)
    requires Shaped(st, |dates|) && k <= m
    requires forall row :: row in rows ==> m <= |row.tests|
    requires SaqcColumns(eval, dates, st, rows, k).Err?
    ensures SaqcColumns(eval, dates, st, rows, m) == SaqcColumns(eval, dates, st, rows, k)
    decreases m - k
  {
    if k < m {
      SaqcColumnsStops(eval, dates, st, rows, k, m - 1);
    }
  }

  /** Passing over a column without tests is only a shortcut: running its
      rows would skip every one of them and change nothing. */
  lemma {:induction false} UntestedColumnUnchanged(eval: Evaluator, dates: seq<int>, st: SaqcState, rows: seq<ConfigRow>, c: nat, k: nat)
    requires Shaped(st, |dates|) && k <= |rows|
    requires forall row :: row in rows ==> c < |row.tests|
    requires Untested(rows, c)
    ensures SaqcRows(eval, dates, st, rows, c, k) == Ok(st)
  {
    if k > 0 {
      UntestedColumnUnchanged(eval, dates, st, rows, c, k - 1);
      assert rows[k - 1] in rows;
    }
  }

  /** Whether some row among rows 0..k-1 has a window holding the date d. */
  predicate Windowed(rows: seq<ConfigRow>, k: nat, d: int)
    requires k <= |rows|
  {
    k > 0 && (Windowed(rows, k - 1, d) || rows[k - 1].start <= d <= rows[k - 1].end)
  }

  /** A test on the rows [lo, hi) changes no data and no flag outside them. */
  lemma SaqcTestConfined(eval: Evaluator, n: nat, st: SaqcState, v: Name, e: Expr, lo: nat, hi: nat)
    requires lo <= hi <= n && Shaped(st, n)
    requires SaqcTest(eval, n, st, v, e, lo, hi).Ok?
    ensures var r := SaqcTest(eval, n, st, v, e, lo, hi).value;
      && (forall u, i :: u in st.data && 0 <= i < n && !(lo <= i < hi) ==> r.data[u][i] == st.data[u][i])
      && (forall u, i :: u in st.flags && 0 <= i < n && !(lo <= i < hi) ==> r.flags[u][i] == st.flags[u][i])
  {
    var w := Window(hi - lo, Slice(st.data, lo, hi), Slice(st.flags, lo, hi));
    var out := eval(e, w, v).value;
    assert Fits(out, w);
    var r := SaqcTest(eval, n, st, v, e, lo, hi).value;
    assert r == SaqcWriteBack(st, n, lo, hi, out);
    assert r.data == Splice(st.data, lo, out.data) && r.flags == Splice(st.flags, lo, out.flags);
    SpliceConfined(st.data, n, lo, hi, out.data);
    SpliceConfined(st.flags, n, lo, hi, out.flags);
  }

  /** Whatever the test does, a row changes no data and no flag outside its
      window [start, end]. */
  lemma SaqcRowConfined(eval: Evaluator, dates: seq<int>, st: SaqcState, row: ConfigRow, c: nat)
    requires Shaped(st, |dates|) && c < |row.tests| && Increasing(dates)
    requires SaqcRowStep(eval, dates, st, row, c).Ok?
    ensures var r := SaqcRowStep(eval, dates, st, row, c).value;
      && (forall v, i :: v in st.data && 0 <= i < |dates| && !(row.start <= dates[i] <= row.end) ==> r.data[v][i] == st.data[v][i])
      && (forall v, i :: v in st.flags && 0 <= i < |dates| && !(row.start <= dates[i] <= row.end) ==> r.flags[v][i] == st.flags[v][i])
  {
    if !Skipped(dates, st, row, c) {
      var span := Span(dates, row.start, row.end);
      var lo, hi := span.0, span.1;
      SpanExact(dates, row.start, row.end);
      SaqcTestConfined(eval, |dates|, st, row.varname, row.tests[c].value, lo, hi);
      var r := SaqcTest(eval, |dates|, st, row.varname, row.tests[c].value, lo, hi).value;
      assert SaqcRowStep(eval, dates, st, row, c).value == r;
      forall v, i | v in st.data && 0 <= i < |dates| && !(row.start <= dates[i] <= row.end)
        ensures r.data[v][i] == st.data[v][i]
      {
        assert !(lo <= i < hi);
      }
      forall v, i | v in st.flags && 0 <= i < |dates| && !(row.start <= dates[i] <= row.end)
        ensures r.flags[v][i] == st.flags[v][i]
      {
        assert !(lo <= i < hi);
      }
    }
  }

  /** A test column changes no data and no flag at a date outside the
      windows of all its rows. */
  lemma {:induction false} SaqcRowsConfined(eval: Evaluator, dates: seq<int>, st: SaqcState, rows: seq<ConfigRow>, c: nat, k: nat)
    requires Shaped(st, |dates|) && k <= |rows| && Increasing(dates)
    requires forall row :: row in rows ==> c < |row.tests|
    requires SaqcRows(eval, dates, st, rows, c, k).Ok?
    ensures var r := SaqcRows(eval, dates, st, rows, c, k).value;
      && (forall v, i :: v in st.data && 0 <= i < |dates| && !Windowed(rows, k, dates[i]) ==> r.data[v][i] == st.data[v][i])
      && (forall v, i :: v in st.flags && 0 <= i < |dates| && !Windowed(rows, k, dates[i]) ==> r.flags[v][i] == st.flags[v][i])
  {
    if k > 0 {
      var prev := SaqcRows(eval, dates, st, rows, c, k - 1);
      assert prev.Ok?;
      SaqcRowsConfined(eval, dates, st, rows, c, k - 1);
      assert rows[k - 1] in rows;
      SaqcRowConfined(eval, dates, prev.value, rows[k - 1], c);
    }
  }

  // ---------------------------------------------------------------------
  // The loops

  /** The outcome of a step that may have raised. */
  function Outcome(err: Option<SaqcError>, st: SaqcState): (r: Result<SaqcState, SaqcError>)
    ensures r.Ok? <==> err.None?
    ensures r.Ok? ==> r.value == st
    ensures r.Err? ==> r.error == err.value
  {
    if err.None? then Ok(st) else Err(err.value)
  }

  /** One row of test column c: `data` is updated in place, the flagger
      returned anew. */
  method SaqcApplyRow(eval: Evaluator, dates: seq<int>, data: Table<Value>, flags: map<Name, seq<Cell>>,
                      row: ConfigRow, c: nat) returns (err: Option<SaqcError>, flags': map<Name, seq<Cell>>)
    requires data.Valid() && data.height == |dates| && Rectangular(flags, |dates|) && c < |row.tests|
    modifies data
    ensures data.Valid() && data.columns.Keys == old(data.columns).Keys
    ensures Rectangular(flags', |dates|) && flags'.Keys == flags.Keys
    ensures SaqcRowStep(eval, dates, SaqcState(old(data.columns), flags), row, c) == Outcome(err, SaqcState(data.columns, flags'))
  {
    ghost var st := SaqcState(data.columns, flags);
    flags' := flags;
    var test := row.tests[c];
    if test.None? || (row.varname !in data.columns && row.varname !in flags) || |data.columns| == 0 {
      return None, flags;
    }
    var lo := Span(dates, row.start, row.end).0;
    var hi := Span(dates, row.start, row.end).1;
    if lo == hi {
      return None, flags;
    }
    var w := Window(hi - lo, data.Rows(lo, hi), Slice(flags, lo, hi));
    var res := eval(test.value, w, row.varname);
    if res.None? {
      return Some(EvalFailed), flags;
    }
    var out := res.value;
    if !Fits(out, w) {
      return Some(BadWindow), flags;
    }
    SpliceConfined(flags, |dates|, lo, hi, out.flags);
    data.Assign(lo, hi, out.data);
    flags' := Splice(flags, lo, out.flags);
    err := None;
  }

  /** The inner loop over the rows for test column c. */
  method SaqcApplyColumn(eval: Evaluator, dates: seq<int>, data: Table<Value>, flags: map<Name, seq<Cell>>,
                         rows: seq<ConfigRow>, c: nat) returns (err: Option<SaqcError>, flags': map<Name, seq<Cell>>)
    requires data.Valid() && data.height == |dates| && Rectangular(flags, |dates|)
    requires forall row :: row in rows ==> c < |row.tests|
    modifies data
    ensures data.Valid() && data.columns.Keys == old(data.columns).Keys
    ensures Rectangular(flags', |dates|) && flags'.Keys == flags.Keys
    ensures SaqcRows(eval, dates, SaqcState(old(data.columns), flags), rows, c, |rows|) == Outcome(err, SaqcState(data.columns, flags'))
  {
    ghost var s0 := SaqcState(data.columns, flags);
    flags' := flags;
    for i := 0 to |rows|
      invariant data.Valid() && data.columns.Keys == s0.data.Keys
      invariant Rectangular(flags', |dates|) && flags'.Keys == flags.Keys
      invariant SaqcRows(eval, dates, s0, rows, c, i) == Ok(SaqcState(data.columns, flags'))
    {
      SaqcRowsNext(eval, dates, s0, rows, c, i);
      err, flags' := SaqcApplyRow(eval, dates, data, flags', rows[i], c);
      if err.Some? {
        SaqcRowsStops(eval, dates, s0, rows, c, i + 1, |rows|);
        return;
      }
    }
    err := None;
  }

  /** `runner(metafname, flagger, data, flags)` once the configuration is
      read: data is updated in place and the final flags are returned. */
  method SaqcRunner(shape: InputShape, flagger: Flagger, eval: Evaluator, dates: seq<int>, rows: seq<ConfigRow>,
                    width: nat, data: Table<Value>, given: Option<map<Name, seq<Cell>>>)
    returns (r: Result<map<Name, seq<Cell>>, SaqcError>)
    requires WellFormedConfig(width, rows) && data.Valid() && data.height == |dates| && shape.rows == |dates|
    requires given.Some? <==> shape.flags.Some?
    requires given.Some? ==> Rectangular(given.value, shape.flags.value.rows)
    modifies data
    ensures var spec := SaqcRun(shape, flagger, eval, dates, rows, width, old(data.columns), given);
      && (r.Ok? ==> spec == Ok(SaqcState(data.columns, r.value)))
      && (r.Err? ==> spec == Err(r.error))
  {
    var check := CheckInput(shape);
    if check.Some? {
      return Err(InvalidInput(check.value));
    }
    var flags: map<Name, seq<Cell>>;
    if given.None? {
      var names := CollectVariables(rows, data.columns.Keys);
      flags := InitFlags(names, data.height, flagger.noFlag);
    } else {
      flags := given.value;
    }
    ghost var s0 := SaqcState(data.columns, flags);
    assert flags == StartFlags(flagger, rows, data.columns, |dates|, given);
    for c := 0 to width
      invariant data.Valid() && data.columns.Keys == s0.data.Keys
      invariant Rectangular(flags, |dates|) && flags.Keys == s0.flags.Keys
      invariant SaqcColumns(eval, dates, s0, rows, c) == Ok(SaqcState(data.columns, flags))
    {
      if Untested(rows, c) {
        continue;
      }
      var err;
      err, flags := SaqcApplyColumn(eval, dates, data, flags, rows, c);
      if err.Some? {
        SaqcColumnsStops(eval, dates, s0, rows, c + 1, width);
        return Err(err.value);
      }
    }
    return Ok(flags);
  }

  // ---------------------------------------------------------------------
  // The flag order of two generic tests on one variable

  /** How a flagger sets flag f on a cell: its set policy. */
  type SetPolicy = (Cell, Flag) -> Cell

  /** The policy of a flagger that never lowers a flag: setting f on a cell
      holding a worse flag keeps the worse one. */
  function NeverLower(c: Cell, f: Flag): (r: Cell)
    ensures r.Some? && r.value >= f
    ensures c.Some? ==> r.value >= c.value
    ensures r == c || r == Some(f)
  {
    if c.Some? && c.value > f then c else Some(f)
  }

  /** A policy that overwrites whatever the cell holds. */
  function Overwrite(c: Cell, f: Flag): Cell {
    Some(f)
  }

  /** Flag f policy, under the policy, on the cells whose sample satisfies hit. */
  function Marked(policy: SetPolicy, hit: Value -> bool, f: Flag, vals: seq<Value>, flags: seq<Cell>): (r: seq<Cell>)
    requires |vals| == |flags|
    ensures |r| == |flags|
  {
    seq(|flags|, i requires 0 <= i < |flags| => if hit(vals[i]) then policy(flags[i], f) else flags[i])
  }

  /** `generic(func=..., flag=f)` on field v: the flagger's window comes back
      with f set where the condition holds on v's samples; it raises when v
      has no data or no flags. */
  function GenericTest(policy: SetPolicy, hit: Value -> bool, f: Flag, w: Window, v: Name): (r: Option<Window>)
  {
    if v in w.data && v in w.flags && |w.data[v]| == |w.flags[v]| then
      Some(w.(flags := w.flags[v := Marked(policy, hit, f, w.data[v], w.flags[v])]))
    else None
  }

  /** A sample that is not missing: `this >= min(this)` holds exactly there. */
  predicate Present(x: Value) {
    x.Num?
  }

  /** The two tests of the scenario, told apart by their expressions:
      aboveMean is `generic(func=this > mean(this), flag=BAD)`, where `above`
      stands for `this > mean(this)` on the whole column and holds only at
      samples that are present; any other expression is
      `generic(func=this >= min(this), flag=GOOD)`. */
  function FlagOrderEval(policy: SetPolicy, aboveMean: Expr, above: Value -> bool, bad: Flag, good: Flag): Evaluator {
    (e: Expr, w: Window, v: Name) =>
      if e == aboveMean then GenericTest(policy, above, bad, w, v) else GenericTest(policy, Present, good, w, v)
  }

  /** Two rows on variable v over the whole index, in one test column: the
      first tests aboveMean, the second atLeastMin. */
  function FlagOrderRows(v: Name, dates: seq<int>, aboveMean: Expr, atLeastMin: Expr): (rows: seq<ConfigRow>)
    requires |dates| > 0
    ensures WellFormedConfig(1, rows)
  {
    [ConfigRow(v, false, dates[0], dates[|dates| - 1], [Some(aboveMean)]),
     ConfigRow(v, false, dates[0], dates[|dates| - 1], [Some(atLeastMin)])]
  }

  /** Plain data, a `BaseFlagger` and no flags argument. */
  function PlainInput(n: nat): (s: InputShape)
    ensures CheckInput(s).None?
  {
    InputShape(true, false, false, true, n, None)
  }

  /** `loc[first:last]` selects every row of an increasing index. */
  lemma SpanAll(dates: seq<int>)
    requires Increasing(dates) && |dates| > 0
    ensures Span(dates, dates[0], dates[|dates| - 1]) == (0, |dates|)
  {
    SpanExact(dates, dates[0], dates[|dates| - 1]);
    var span := Span(dates, dates[0], dates[|dates| - 1]);
    assert span.0 <= 0 < span.1;
    assert span.0 <= |dates| - 1 < span.1;
  }

  /** A generic test on v over the whole index leaves data as it is and
      marks v's flags. */
  lemma WholeIndexTest(eval: Evaluator, policy: SetPolicy, hit: Value -> bool, f: Flag, dates: seq<int>,
                       st: SaqcState, row: ConfigRow)
    requires Increasing(dates) && |dates| > 0 && Shaped(st, |dates|)
    requires row.varname in st.data && row.varname in st.flags
    requires row.start == dates[0] && row.end == dates[|dates| - 1] && |row.tests| == 1 && row.tests[0].Some?
    requires eval(row.tests[0].value, Window(|dates|, st.data, st.flags), row.varname)
          == GenericTest(policy, hit, f, Window(|dates|, st.data, st.flags), row.varname)
    ensures SaqcRowStep(eval, dates, st, row, 0)
         == Ok(SaqcState(st.data, st.flags[row.varname := Marked(policy, hit, f, st.data[row.varname], st.flags[row.varname])]))
  {
    var n, v := |dates|, row.varname;
    SpanAll(dates);
    SliceWhole(st.data, n);
    SliceWhole(st.flags, n);
    var w := Window(n, st.data, st.flags);
    var flags := st.flags[v := Marked(policy, hit, f, st.data[v], st.flags[v])];
    assert Fits(Window(n, st.data, flags), w);
    SpliceWhole(st.data, n, st.data);
    SpliceWhole(st.flags, n, flags);
  }

  /** A window over every row holds the whole table. */
  lemma SliceWhole<T>(cols: map<Name, seq<T>>, n: nat)
    requires Rectangular(cols, n)
    ensures Slice(cols, 0, n) == cols
  {
    forall c | c in cols
      ensures Slice(cols, 0, n)[c] == cols[c]
    {
      assert cols[c][0..n] == cols[c];
    }
  }

  /** Writing back a window that covers every row replaces the table. */
  lemma SpliceWhole<T>(cols: map<Name, seq<T>>, n: nat, chunk: map<Name, seq<T>>)
    requires Rectangular(cols, n) && Rectangular(chunk, n) && chunk.Keys == cols.Keys
    ensures Splice(cols, 0, chunk) == chunk
  {
    forall c | c in cols
      ensures Splice(cols, 0, chunk)[c] == chunk[c]
    {
      assert cols[c][..0] + chunk[c] + cols[c][n..] == chunk[c];
    }
  }

  /** v's flags after the scenario: unflagged, marked by the first test,
      then by the second. */
  function ScenarioFlags(policy: SetPolicy, above: Value -> bool, bad: Flag, good: Flag, unflagged: Flag,
                         vals: seq<Value>): (f: seq<Cell>)
    ensures |f| == |vals|
  {
    Marked(policy, Present, good, vals, Marked(policy, above, bad, vals, seq(|vals|, _ => Some(unflagged))))
  }

  /** Row i of ScenarioFlags: the unflagged cell, set BAD when above,
      then GOOD when present. */
  lemma ScenarioAt(policy: SetPolicy, above: Value -> bool, bad: Flag, good: Flag, unflagged: Flag,
                   vals: seq<Value>, i: nat)
    requires i < |vals|
    ensures var f1 := if above(vals[i]) then policy(Some(unflagged), bad) else Some(unflagged);
      ScenarioFlags(policy, above, bad, good, unflagged, vals)[i] == if Present(vals[i]) then policy(f1, good) else f1
  {
    var f1 := Marked(policy, above, bad, vals, seq(|vals|, _ => Some(unflagged)));
    assert f1[i] == if above(vals[i]) then policy(Some(unflagged), bad) else Some(unflagged);
  }

  /** test_flagOrder: a first test sets BAD above the mean, a later one sets
      GOOD on every sample. Under a policy that never lowers a flag, every
      present sample ends BAD above the mean and GOOD elsewhere. */
  lemma FlagOrder(aboveMean: Expr, atLeastMin: Expr, above: Value -> bool, bad: Flag, good: Flag, flagger: Flagger, dates: seq<int>,
                  v: Name, data: map<Name, seq<Value>>)
    requires aboveMean != atLeastMin
    requires Increasing(dates) && |dates| > 0 && Rectangular(data, |dates|) && v in data
    requires forall x :: above(x) ==> x.Num?
    requires flagger.noFlag < good < bad
    ensures var r := SaqcRun(PlainInput(|dates|), flagger, FlagOrderEval(NeverLower, aboveMean, above, bad, good), dates,
                             FlagOrderRows(v, dates, aboveMean, atLeastMin), 1, data, None);
      r.Ok? && v in r.value.flags && |r.value.flags[v]| == |dates| &&
      forall i :: 0 <= i < |dates| && data[v][i].Num? ==>
        r.value.flags[v][i] == Some(if above(data[v][i]) then bad else good)
  {
    FlagOrderRun(aboveMean, atLeastMin, NeverLower, above, bad, good, flagger, dates, v, data);
    var f := ScenarioFlags(NeverLower, above, bad, good, flagger.noFlag, data[v]);
    forall i | 0 <= i < |dates| && data[v][i].Num?
      ensures f[i] == Some(if above(data[v][i]) then bad else good)
    {
      ScenarioAt(NeverLower, above, bad, good, flagger.noFlag, data[v], i);
    }
  }

  /** Under a policy that overwrites, the later test wins: every present
      sample ends GOOD, above the mean too. */
  lemma FlagOrderOverwrites(aboveMean: Expr, atLeastMin: Expr, above: Value -> bool, bad: Flag, good: Flag, flagger: Flagger, dates: seq<int>,
                            v: Name, data: map<Name, seq<Value>>)
    requires aboveMean != atLeastMin
    requires Increasing(dates) && |dates| > 0 && Rectangular(data, |dates|) && v in data
    ensures var r := SaqcRun(PlainInput(|dates|), flagger, FlagOrderEval(Overwrite, aboveMean, above, bad, good), dates,
                             FlagOrderRows(v, dates, aboveMean, atLeastMin), 1, data, None);
      r.Ok? && v in r.value.flags && |r.value.flags[v]| == |dates| &&
      forall i :: 0 <= i < |dates| && data[v][i].Num? ==> r.value.flags[v][i] == Some(good)
  {
    FlagOrderRun(aboveMean, atLeastMin, Overwrite, above, bad, good, flagger, dates, v, data);
    var f := ScenarioFlags(Overwrite, above, bad, good, flagger.noFlag, data[v]);
    forall i | 0 <= i < |dates| && data[v][i].Num?
      ensures f[i] == Some(good)
    {
      ScenarioAt(Overwrite, above, bad, good, flagger.noFlag, data[v], i);
    }
  }

  /** The scenario's run under any policy ends with v's flags marked by the
      first test, then by the second. */
  lemma FlagOrderRun(aboveMean: Expr, atLeastMin: Expr, policy: SetPolicy, above: Value -> bool, bad: Flag, good: Flag,
                     flagger: Flagger, dates: seq<int>, v: Name, data: map<Name, seq<Value>>)
    requires aboveMean != atLeastMin
    requires Increasing(dates) && |dates| > 0 && Rectangular(data, |dates|) && v in data
    ensures var r := SaqcRun(PlainInput(|dates|), flagger, FlagOrderEval(policy, aboveMean, above, bad, good), dates,
                             FlagOrderRows(v, dates, aboveMean, atLeastMin), 1, data, None);
      r.Ok? && v in r.value.flags && r.value.flags[v] == ScenarioFlags(policy, above, bad, good, flagger.noFlag, data[v])
  {
    var n := |dates|;
    var rows := FlagOrderRows(v, dates, aboveMean, atLeastMin);
    var eval := FlagOrderEval(policy, aboveMean, above, bad, good);
    var st0 := SaqcState(data, map[v := seq(n, _ => Some(flagger.noFlag))]);
    FlagOrderStart(aboveMean, atLeastMin, flagger, dates, v, data);
    assert !Untested(rows, 0) by { assert rows[0] in rows; }
    assert SaqcColumns(eval, dates, st0, rows, 0) == Ok(st0);
    assert SaqcColumns(eval, dates, st0, rows, 1) == SaqcRows(eval, dates, st0, rows, 0, 2);
    FlagOrderFirst(aboveMean, atLeastMin, policy, above, bad, good, dates, v, st0);
    var st1 := SaqcState(data, st0.flags[v := Marked(policy, above, bad, data[v], st0.flags[v])]);
    SaqcRowsNext(eval, dates, st0, rows, 0, 1);
    FlagOrderSecond(aboveMean, atLeastMin, policy, above, bad, good, dates, v, st1);
  }

  /** The flagger starts with one unflagged column, for v. */
  lemma FlagOrderStart(aboveMean: Expr, atLeastMin: Expr, flagger: Flagger, dates: seq<int>, v: Name, data: map<Name, seq<Value>>)
    requires |dates| > 0 && v in data
    ensures StartFlags(flagger, FlagOrderRows(v, dates, aboveMean, atLeastMin), data, |dates|, None)
         == map[v := seq(|dates|, _ => Some(flagger.noFlag))]
  {
    var rows := FlagOrderRows(v, dates, aboveMean, atLeastMin);
    assert Collected(rows, data.Keys, 1) == [v];
    assert Collected(rows, data.Keys, 2) == [v, v];
    assert (set u | u in [v, v]) == {v};
  }

  /** The first row sets BAD where the sample is above the mean. */
  lemma FlagOrderFirst(aboveMean: Expr, atLeastMin: Expr, policy: SetPolicy, above: Value -> bool, bad: Flag, good: Flag,
                       dates: seq<int>, v: Name, st: SaqcState)
    requires Increasing(dates) && |dates| > 0 && Shaped(st, |dates|) && v in st.data && v in st.flags
    ensures SaqcRows(FlagOrderEval(policy, aboveMean, above, bad, good), dates, st, FlagOrderRows(v, dates, aboveMean, atLeastMin), 0, 1)
         == Ok(SaqcState(st.data, st.flags[v := Marked(policy, above, bad, st.data[v], st.flags[v])]))
  {
    var rows := FlagOrderRows(v, dates, aboveMean, atLeastMin);
    var eval := FlagOrderEval(policy, aboveMean, above, bad, good);
    WholeIndexTest(eval, policy, above, bad, dates, st, rows[0]);
    assert SaqcRows(eval, dates, st, rows, 0, 1) == SaqcRowStep(eval, dates, st, rows[0], 0);
  }

  /** The second row sets GOOD on every present sample. */
  lemma FlagOrderSecond(aboveMean: Expr, atLeastMin: Expr, policy: SetPolicy, above: Value -> bool, bad: Flag, good: Flag, dates: seq<int>,
                        v: Name, st: SaqcState)
    requires aboveMean != atLeastMin
    requires Increasing(dates) && |dates| > 0 && Shaped(st, |dates|) && v in st.data && v in st.flags
    ensures SaqcRowStep(FlagOrderEval(policy, aboveMean, above, bad, good), dates, st, FlagOrderRows(v, dates, aboveMean, atLeastMin)[1], 0)
         == Ok(SaqcState(st.data, st.flags[v := Marked(policy, Present, good, st.data[v], st.flags[v])]))
  {
    var rows := FlagOrderRows(v, dates, aboveMean, atLeastMin);
    var eval := FlagOrderEval(policy, aboveMean, above, bad, good);
    WholeIndexTest(eval, policy, Present, good, dates, st, rows[1]);
  }
}
