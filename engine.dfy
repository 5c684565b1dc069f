/** src/engine.py: input-format dispatch, wide-to-long reshaping and the comparison schema. */
module Engine {
  import opened Base
  import opened Text
  import opened Lists
  import opened Tables

  // ---------------------------------------------------------------- load_data

  datatype FileFormat = Csv | Json | Parquet

  function Extension(f: FileFormat): string {
    match f
    case Csv => ".csv"
    case Json => ".json"
    case Parquet => ".parquet"
  }

  /** A path given on the command line, or an uploaded stream that may carry a `name`. */
  datatype Source = PathSource(path: string) | StreamSource(name: Option<string>)

  /** The name dispatch looks at: the path itself, or the stream's name ("" when it has none). */
  function FilenameOf(source: Source): string {
    match source
    case PathSource(p) => p
    case StreamSource(n) => n.GetOr("")
  }

  /** The reader chosen by the case-insensitive ending of the file name. */
  function FormatOf(filename: string): (r: Result<FileFormat>)
    ensures r.Ok? ==> EndsWith(Lower(filename), Extension(r.value))
    ensures r.Err? ==> r.error == UnsupportedFormat(filename)
                       && forall f :: !EndsWith(Lower(filename), Extension(f))
  {
    var lower := Lower(filename);
    if EndsWith(lower, ".csv") then Ok(Csv)
    else if EndsWith(lower, ".json") then Ok(Json)
    else if EndsWith(lower, ".parquet") then Ok(Parquet)
    else Err(UnsupportedFormat(filename))
  }

  /** No name ends with two of the recognised extensions, so the dispatch is unambiguous. */
  lemma ExtensionsExclusive(name: string, f: FileFormat, g: FileFormat)
    requires EndsWith(name, Extension(f)) && EndsWith(name, Extension(g))
    ensures f == g
  {
    assert name[|name| - 1] == Extension(f)[|Extension(f)| - 1];
    assert name[|name| - 1] == Extension(g)[|Extension(g)| - 1];
  }

  /** Any stem followed by any capitalisation of a format's extension is read in that format. */
  lemma FormatOfAnyCase(stem: string, ext: string, f: FileFormat)
    requires Lower(ext) == Extension(f)
    ensures FormatOf(stem + ext) == Ok(f)
  {
    LowerAppend(stem, ext);
    var lower := Lower(stem + ext);
    assert lower[|lower| - |ext|..] == Lower(ext);
    assert EndsWith(lower, Extension(f));
    match FormatOf(stem + ext)
    case Ok(g) => ExtensionsExclusive(lower, f, g);
    case Err(_) =>
  }

  /** An uploaded stream without a name is always refused. */
  lemma UnnamedStreamUnsupported()
    ensures FormatOf(FilenameOf(StreamSource(None))) == Err(UnsupportedFormat(""))
  {
  }

  /**
   * Reads the source with the reader its name selects. Parsing belongs to the dataframe
   * library and is the parameter `read`.
   */
  function LoadData(source: Source, read: (FileFormat, Source) -> Result<Table>): (r: Result<Table>)
    ensures FormatOf(FilenameOf(source)).Err? ==> r == Err(UnsupportedFormat(FilenameOf(source)))
    ensures FormatOf(FilenameOf(source)).Ok? ==> r == read(FormatOf(FilenameOf(source)).value, source)
  {
    match FormatOf(FilenameOf(source))
    case Err(e) => Err(e)
    case Ok(f) => read(f, source)
  }

  // ---------------------------------------------------------------- unpivot_data

  /** The columns kept as identifiers (`index`) and the columns turned into rows (`on`). */
  datatype Selection = Selection(index: seq<string>, on: seq<string>)

  /** The list comprehension `[col for col in cols if col not in drop]`. */
  function Without<T(==)>(cols: seq<T>, drop: seq<T>): (r: seq<T>)
    ensures |r| <= |cols|
    ensures forall i :: 0 <= i < |r| ==> r[i] in cols && r[i] !in drop
  {
    if cols == [] then []
    else (if cols[0] in drop then [] else [cols[0]]) + Without(cols[1..], drop)
  }

  /** A column survives `Without` exactly when it is one of `cols` and not one of `drop`. */
  lemma {:induction false} WithoutMembers<T>(cols: seq<T>, drop: seq<T>, c: T)
    ensures c in Without(cols, drop) <==> c in cols && c !in drop
  {
    if cols != [] {
      WithoutMembers(cols[1..], drop, c);
      assert cols == [cols[0]] + cols[1..];
    }
  }

  /** `Without` keeps the order of the columns it keeps. */
  lemma {:induction false} WithoutOrdered<T>(cols: seq<T>, drop: seq<T>)
    requires Distinct(cols)
    ensures OrderedIn(Without(cols, drop), cols)
  {
    if cols != [] {
      WithoutOrdered(cols[1..], drop);
      if cols[0] !in drop {
        OrderedInCons(Without(cols[1..], drop), cols);
      } else {
        OrderedInTail(Without(cols[1..], drop), cols);
      }
    }
  }

  lemma {:induction false} WithoutAppend<T>(a: seq<T>, b: seq<T>, drop: seq<T>)
    ensures Without(a + b, drop) == Without(a, drop) + Without(b, drop)
  {
    if a != [] {
      assert (a + b)[1..] == a[1..] + b;
      WithoutAppend(a[1..], b, drop);
    } else {
      assert a + b == b;
    }
  }

  lemma {:induction false} WithoutNothing<T>(cols: seq<T>, drop: seq<T>)
    requires forall i :: 0 <= i < |cols| ==> cols[i] !in drop
    ensures Without(cols, drop) == cols
  {
    if cols != [] {
      WithoutNothing(cols[1..], drop);
    }
  }

  lemma {:induction false} WithoutAll<T>(cols: seq<T>, drop: seq<T>)
    requires forall i :: 0 <= i < |cols| ==> cols[i] in drop
    ensures Without(cols, drop) == []
  {
    if cols != [] {
      WithoutAll(cols[1..], drop);
    }
  }

  lemma OutsideSlice<T>(cols: seq<T>, s: nat, e: nat, i: nat)
    requires Distinct(cols) && s <= e <= |cols| && i < |cols| && !(s <= i < e)
    ensures cols[i] !in cols[s..e]
  {
    forall k | s <= k < e ensures cols[k] != cols[i] { }
  }

  /** Dropping the middle part removes it and keeps the outer parts when they avoid it. */
  lemma WithoutMiddle<T>(pre: seq<T>, mid: seq<T>, post: seq<T>)
    requires forall i :: 0 <= i < |pre| ==> pre[i] !in mid
    requires forall i :: 0 <= i < |post| ==> post[i] !in mid
    ensures Without(pre + mid + post, mid) == pre + post
  {
    calc {
      Without(pre + mid + post, mid);
    == { WithoutAppend(pre + mid, post, mid); }
      Without(pre + mid, mid) + Without(post, mid);
    == { WithoutAppend(pre, mid, mid); }
      Without(pre, mid) + Without(mid, mid) + Without(post, mid);
    == { WithoutNothing(pre, mid); WithoutAll(mid, mid); WithoutNothing(post, mid); }
      pre + [] + post;
    }
    assert pre + [] + post == pre + post;
  }

  /** In index mode without identifiers, the identifiers are the columns around the slice. */
  lemma WithoutSlice<T>(cols: seq<T>, s: nat, e: nat)
    requires Distinct(cols) && s <= e <= |cols|
    ensures Without(cols, cols[s..e]) == cols[..s] + cols[e..]
  {
    var pre, mid, post := cols[..s], cols[s..e], cols[e..];
    CutTwice(cols, s, e);
    forall i | 0 <= i < |pre| ensures pre[i] !in mid {
      OutsideSlice(cols, s, e, i);
    }
    forall i | 0 <= i < |post| ensures post[i] !in mid {
      OutsideSlice(cols, s, e, e + i);
    }
    WithoutMiddle(pre, mid, post);
  }

  /** An identifier list counts only when it is given and not empty. */
  predicate HasIds(idColumns: Option<seq<string>>) {
    idColumns.Some? && |idColumns.value| > 0
  }

  /** The validation and column partition of `unpivot_data`, before any reshaping. */
  function SelectColumns(columns: seq<string>, idColumns: Option<seq<string>>,
                         start: Option<int>, end: Option<int>): (r: Result<Selection>)
    ensures r == Err(AmbiguousUnpivotSpec) <==> !HasIds(idColumns) && start.None?
    ensures r.Err? ==> r.error in {AmbiguousUnpivotSpec, ColumnIndexOutOfRange(|columns|), StartNotBeforeEnd}
    ensures start.Some? ==>
              var s, e := start.value, end.GetOr(|columns|);
              && (r == Err(ColumnIndexOutOfRange(|columns|)) <==> s < 0 || e > |columns|)
              && (r == Err(StartNotBeforeEnd) <==> 0 <= s && e <= |columns| && s >= e)
              && (r.Ok? ==> 0 <= s < e <= |columns| && r.value.on == columns[s..e])
  {
    var hasIds := HasIds(idColumns);
    if !hasIds && start.None? then Err(AmbiguousUnpivotSpec)
    else if start.Some? then
      var s, e := start.value, end.GetOr(|columns|);
      if s < 0 || e > |columns| then Err(ColumnIndexOutOfRange(|columns|))
      else if s >= e then Err(StartNotBeforeEnd)
      else
        var on := columns[s..e];
        Ok(Selection(if hasIds then idColumns.value else Without(columns, on), on))
    else
      Ok(Selection(idColumns.value, Without(columns, idColumns.value)))
  }

  /**
   * Index mode: the values are the slice `[start, end)`, `end - start` of them. Without
   * identifiers the identifiers are the other columns, in order, so every column lands
   * in exactly one of the two lists; with identifiers the caller's list is kept as given.
   */
  lemma IndexModeSelection(columns: seq<string>, idColumns: Option<seq<string>>, s: int, end: Option<int>)
    requires Distinct(columns)
    requires SelectColumns(columns, idColumns, Some(s), end).Ok?
    ensures var sel, e := SelectColumns(columns, idColumns, Some(s), end).value, end.GetOr(|columns|);
            && 0 <= s < e <= |columns|
            && sel.on == columns[s..e] && |sel.on| == e - s
            && (HasIds(idColumns) ==> sel.index == idColumns.value)
            && (!HasIds(idColumns) ==>
                  && sel.index == columns[..s] + columns[e..]
                  && forall c :: c in columns ==> (c in sel.index <==> c !in sel.on))
  {
    var e := end.GetOr(|columns|);
    if !HasIds(idColumns) {
      WithoutSlice(columns, s, e);
      forall c | c in columns ensures c in Without(columns, columns[s..e]) <==> c !in columns[s..e] {
        WithoutMembers(columns, columns[s..e], c);
      }
    }
  }

  /**
   * Identifier mode: the values are every other column in table order; identifiers and
   * values are disjoint and together cover every column.
   */
  lemma IdModeSelection(columns: seq<string>, ids: seq<string>)
    requires Distinct(columns) && |ids| > 0
    ensures var sel := SelectColumns(columns, Some(ids), None, None);
            && sel.Ok? && sel.value.index == ids
            && OrderedIn(sel.value.on, columns)
            && (forall c :: c in columns ==> (c in ids <==> c !in sel.value.on))
  {
    WithoutOrdered(columns, ids);
    forall c | c in columns ensures c in ids <==> c !in Without(columns, ids) {
      WithoutMembers(columns, ids, c);
    }
  }

  /** The polars type of a column that stacks columns of the given types. */
  function StackedType(ds: seq<DType>): (d: DType)
    ensures forall k :: 0 <= k < |ds| ==> d == ds[k] || d.OtherType?
  {
    if |ds| > 0 && forall k :: 0 <= k < |ds| ==> ds[k] == ds[0] then ds[0] else OtherType("mixed")
  }

  /** Every name in `names` is a column of `t`. */
  predicate AllColumns(t: Table, names: seq<string>) {
    forall k :: 0 <= k < |names| ==> names[k] in Names(t.columns)
  }

  /** The first name of `names` that is not a column of `t`, if any. */
  function FirstMissing(t: Table, names: seq<string>): (r: Option<string>)
    ensures r.None? <==> AllColumns(t, names)
    ensures r.Some? ==> r.value in names && r.value !in Names(t.columns)
  {
    if names == [] then None
    else if names[0] !in Names(t.columns) then Some(names[0])
    else
      var r := FirstMissing(t, names[1..]);
      assert AllColumns(t, names[1..]) ==> AllColumns(t, names) by {
        if AllColumns(t, names[1..]) {
          forall k | 0 < k < |names| ensures names[k] in Names(t.columns) {
            assert names[k] == names[1..][k - 1];
          }
        }
      }
      r
  }

  /** The first name that occurs twice in `names`, if any. */
  function FirstDuplicate(names: seq<string>): (r: Option<string>)
    ensures r.None? <==> Distinct(names)
    ensures r.Some? ==> r.value in names
  {
    if names == [] then None
    else if names[0] in names[1..] then Some(names[0])
    else
      var r := FirstDuplicate(names[1..]);
      assert r.None? ==> Distinct(names) by {
        if r.None? {
          forall i, j | 0 <= i < j < |names| ensures names[i] != names[j] {
            if i > 0 { assert names[i] == names[1..][i - 1] && names[j] == names[1..][j - 1]; }
            else { assert names[j] in names[1..]; }
          }
        }
      }
      r
  }

  /** The cells of `row` under the named columns. */
  function Project(t: Table, row: Row, names: seq<string>): (r: Row)
    requires |row| == |t.columns| && AllColumns(t, names)
    ensures |r| == |names|
    ensures forall k :: 0 <= k < |names| ==> r[k] == At(t, row, names[k])
  {
    seq(|names|, k requires 0 <= k < |names| => At(t, row, names[k]))
  }

  /** The long row for input row `row` and value column `v`: identifiers, the name `v`, its cell. */
  function LongRow(t: Table, row: Row, index: seq<string>, v: string): Row
    requires |row| == |t.columns| && v in Names(t.columns) && AllColumns(t, index)
  {
    Project(t, row, index) + [StrCell(v), At(t, row, v)]
  }

  /** The long rows for one value column: one per input row, in input order. */
  function Block(t: Table, index: seq<string>, v: string): (r: seq<Row>)
    requires WellFormed(t) && v in Names(t.columns) && AllColumns(t, index)
    ensures |r| == |t.rows|
    ensures forall i :: 0 <= i < |t.rows| ==> r[i] == LongRow(t, t.rows[i], index, v)
  {
    seq(|t.rows|, i requires 0 <= i < |t.rows| => LongRow(t, t.rows[i], index, v))
  }

  /** The blocks of all value columns, one after the other. */
  function Stack(t: Table, index: seq<string>, on: seq<string>): (r: seq<Row>)
    requires WellFormed(t) && AllColumns(t, index) && AllColumns(t, on)
    ensures |r| == |on| * |t.rows|
  {
    if on == [] then []
    else
      assert AllColumns(t, on[1..]) by {
        forall k | 0 <= k < |on| - 1 ensures on[1..][k] in Names(t.columns) {
          assert on[1..][k] == on[k + 1];
        }
      }
      var r := Block(t, index, on[0]) + Stack(t, index, on[1..]);
      assert |on| * |t.rows| == |t.rows| + (|on| - 1) * |t.rows|;
      r
  }

  /** The stack is the first column's block followed by the stack of the others. */
  lemma StackCons(t: Table, index: seq<string>, on: seq<string>)
    requires WellFormed(t) && AllColumns(t, index) && AllColumns(t, on) && on != []
    ensures AllColumns(t, on[1..])
    ensures Stack(t, index, on) == Block(t, index, on[0]) + Stack(t, index, on[1..])
  {
    forall k | 0 <= k < |on| - 1 ensures on[1..][k] in Names(t.columns) {
      assert on[1..][k] == on[k + 1];
    }
  }

  lemma MulPred(j: nat, n: nat)
    requires j > 0
    ensures j * n == n + (j - 1) * n
  {
  }

  /** Row `j * n + i` of the stack comes from value column `j` and input row `i`. */
  lemma {:induction false} StackAt(t: Table, index: seq<string>, on: seq<string>, j: nat, i: nat)
    requires WellFormed(t) && AllColumns(t, index) && AllColumns(t, on)
    requires j < |on| && i < |t.rows|
    ensures j * |t.rows| + i < |Stack(t, index, on)|
    ensures Stack(t, index, on)[j * |t.rows| + i] == LongRow(t, t.rows[i], index, on[j])
  {
    var n := |t.rows|;
    StackCons(t, index, on);
    var head, rest := Block(t, index, on[0]), Stack(t, index, on[1..]);
    if j > 0 {
      StackAt(t, index, on[1..], j - 1, i);
      var p := (j - 1) * n + i;
      MulPred(j, n);
      assert j * n + i == |head| + p;
      AppendAt(head, rest, p);
    }
  }

  /** The schema of the long table: identifiers keep their type, then the two new columns. */
  function LongColumns(t: Table, sel: Selection, variableName: string, valueName: string): (r: seq<Column>)
    requires AllColumns(t, sel.index) && AllColumns(t, sel.on)
    ensures Names(r) == sel.index + [variableName, valueName]
  {
    var idCols := seq(|sel.index|, k requires 0 <= k < |sel.index| =>
                      Column(sel.index[k], TypeOf(t.columns, sel.index[k])));
    idCols + [Column(variableName, Utf8), Column(valueName, ValueType(t, sel.on))]
  }

  /** The type of the value column: the stacked type of the value columns. */
  function ValueType(t: Table, on: seq<string>): DType
    requires AllColumns(t, on)
  {
    StackedType(seq(|on|, k requires 0 <= k < |on| => TypeOf(t.columns, on[k])))
  }

  /** A cell of a well-formed table fits the type of its column. */
  lemma AtFits(t: Table, i: nat, name: string)
    requires WellFormed(t) && i < |t.rows| && name in Names(t.columns)
    ensures Fits(At(t, t.rows[i], name), TypeOf(t.columns, name))
  {
    assert RowFits(t.rows[i], t.columns);
  }

  /** Whatever fits one value column fits the value column of the long table. */
  lemma FitsValueType(t: Table, on: seq<string>, j: nat, x: Cell)
    requires AllColumns(t, on) && j < |on| && Fits(x, TypeOf(t.columns, on[j]))
    ensures Fits(x, ValueType(t, on))
  {
    var ds := seq(|on|, k requires 0 <= k < |on| => TypeOf(t.columns, on[k]));
    assert ds[j] == TypeOf(t.columns, on[j]);
  }

  /** Every long row has one cell of the right type per long column. */
  lemma LongRowFits(t: Table, sel: Selection, variableName: string, valueName: string, j: nat, i: nat)
    requires WellFormed(t) && AllColumns(t, sel.index) && AllColumns(t, sel.on)
    requires j < |sel.on| && i < |t.rows|
    ensures RowFits(LongRow(t, t.rows[i], sel.index, sel.on[j]), LongColumns(t, sel, variableName, valueName))
  {
    var row, cols := t.rows[i], LongColumns(t, sel, variableName, valueName);
    var r := LongRow(t, row, sel.index, sel.on[j]);
    var m := |sel.index|;
    forall k | 0 <= k < m ensures Fits(r[k], cols[k].dtype) {
      AtFits(t, i, sel.index[k]);
    }
    AtFits(t, i, sel.on[j]);
    FitsValueType(t, sel.on, j, r[m + 1]);
  }

  /**
   * The dataframe library's unpivot: the `index` columns, then `variableName` holding the
   * name of a value column, then `valueName` holding its cell. Fails when a named column is
   * missing or the output would have two columns of the same name.
   */
  function Unpivot(t: Table, sel: Selection, variableName: string, valueName: string): (r: Result<Table>)
    requires WellFormed(t)
    ensures r.Ok? <==> AllColumns(t, sel.index) && AllColumns(t, sel.on)
                       && Distinct(sel.index + [variableName, valueName])
    ensures r.Ok? ==> Names(r.value.columns) == sel.index + [variableName, valueName]
                      && |r.value.rows| == |sel.on| * |t.rows|
  {
    match FirstMissing(t, sel.index)
    case Some(c) => Err(ColumnNotFound(c))
    case None =>
      match FirstMissing(t, sel.on)
      case Some(c) => Err(ColumnNotFound(c))
      case None =>
        match FirstDuplicate(sel.index + [variableName, valueName])
        case Some(c) => Err(DuplicateColumn(c))
        case None => Ok(Table(LongColumns(t, sel, variableName, valueName), Stack(t, sel.index, sel.on)))
  }

  /** A failed unpivot names a missing input column or a duplicated output column. */
  lemma UnpivotErrors(t: Table, sel: Selection, variableName: string, valueName: string)
    requires WellFormed(t) && Unpivot(t, sel, variableName, valueName).Err?
    ensures var e := Unpivot(t, sel, variableName, valueName).error;
            || (e.ColumnNotFound? && (e.name in sel.index || e.name in sel.on) && e.name !in Names(t.columns))
            || (e.DuplicateColumn? && e.name in sel.index + [variableName, valueName]
                && !Distinct(sel.index + [variableName, valueName]))
  {
  }

  /** Row `j * n + i` of the long table is input row `i` paired with value column `j`. */
  lemma UnpivotRows(t: Table, sel: Selection, variableName: string, valueName: string, j: nat, i: nat)
    requires WellFormed(t) && Unpivot(t, sel, variableName, valueName).Ok?
    requires j < |sel.on| && i < |t.rows|
    ensures AllColumns(t, sel.index) && sel.on[j] in Names(t.columns)
    ensures j * |t.rows| + i < |Unpivot(t, sel, variableName, valueName).value.rows|
    ensures Unpivot(t, sel, variableName, valueName).value.rows[j * |t.rows| + i]
            == LongRow(t, t.rows[i], sel.index, sel.on[j])
  {
    StackAt(t, sel.index, sel.on, j, i);
  }

  /** The long table is itself well formed: unique names, and every cell fits its column. */
  lemma UnpivotWellFormed(t: Table, sel: Selection, variableName: string, valueName: string)
    requires WellFormed(t) && Unpivot(t, sel, variableName, valueName).Ok?
    ensures WellFormed(Unpivot(t, sel, variableName, valueName).value)
  {
    var out := Unpivot(t, sel, variableName, valueName).value;
    var n := |t.rows|;
    forall p | 0 <= p < |out.rows| ensures RowFits(out.rows[p], out.columns) {
      var j, i := p / n, p % n;
      DivideRow(p, |sel.on|, n);
      StackAt(t, sel.index, sel.on, j, i);
      LongRowFits(t, sel, variableName, valueName, j, i);
    }
  }

  lemma DivideRow(p: nat, m: nat, n: nat)
    requires p < m * n
    ensures n > 0 && p / n < m && p % n < n && p == (p / n) * n + p % n
  {
  }

  /**
   * `unpivot_data`: validate and select first, then reshape. Every validation failure is
   * reported before the reshape is attempted.
   */
  function UnpivotData(t: Table, idColumns: Option<seq<string>>, start: Option<int>, end: Option<int>,
                       variableName: string, valueName: string): (r: Result<Table>)
    requires WellFormed(t)
    ensures SelectColumns(Names(t.columns), idColumns, start, end).Err? ==>
              r == Err(SelectColumns(Names(t.columns), idColumns, start, end).error)
    ensures SelectColumns(Names(t.columns), idColumns, start, end).Ok? ==>
              r == Unpivot(t, SelectColumns(Names(t.columns), idColumns, start, end).value, variableName, valueName)
  {
    match SelectColumns(Names(t.columns), idColumns, start, end)
    case Err(e) => Err(e)
    case Ok(sel) => Unpivot(t, sel, variableName, valueName)
  }

  /** In index mode the long table has `(end - start) * rows` rows. */
  lemma UnpivotIndexModeRowCount(t: Table, idColumns: Option<seq<string>>, s: int, end: Option<int>,
                                 variableName: string, valueName: string)
    requires WellFormed(t)
    requires UnpivotData(t, idColumns, Some(s), end, variableName, valueName).Ok?
    ensures |UnpivotData(t, idColumns, Some(s), end, variableName, valueName).value.rows|
            == (end.GetOr(|t.columns|) - s) * |t.rows|
  {
    var sel := SelectColumns(Names(t.columns), idColumns, Some(s), end);
    assert sel.Ok?;
    assert |sel.value.on| == end.GetOr(|t.columns|) - s;
  }

  // ---------------------------------------------------------------- compare_datasets

  predicate IsNumeric(d: DType) {
    d == Int64 || d == Float64
  }

  /** The columns of A that get a difference column, in A's order. */
  function DiffColumns(a: seq<Column>, bNames: seq<string>, key: string): (r: seq<string>)
    ensures |r| <= |a|
  {
    if a == [] then []
    else
      var c := a[0];
      (if c.name in bNames && IsNumeric(c.dtype) && c.name != key then [c.name] else [])
      + DiffColumns(a[1..], bNames, key)
  }

  lemma TypeOfTail(cols: seq<Column>, c: string)
    requires Distinct(Names(cols)) && |cols| > 0 && c in Names(cols[1..])
    ensures TypeOf(cols, c) == TypeOf(cols[1..], c)
  {
    assert Names(cols[1..]) == Names(cols)[1..];
    IndexOfTail(Names(cols), c);
  }

  /**
   * A column gets a difference column exactly when it is a column of A, also a column of
   * B, not the join key, and of an integer or floating type in A.
   */
  lemma {:induction false} DiffColumnsMembers(a: seq<Column>, bNames: seq<string>, key: string, c: string)
    requires Distinct(Names(a))
    ensures c in DiffColumns(a, bNames, key)
            <==> c in Names(a) && c in bNames && c != key && IsNumeric(TypeOf(a, c))
  {
    if a != [] {
      var names := Names(a);
      assert names == [a[0].name] + Names(a[1..]);
      DiffColumnsMembers(a[1..], bNames, key, c);
      if c != a[0].name && c in Names(a[1..]) {
        TypeOfTail(a, c);
      }
    }
  }

  /** The difference columns follow A's column order, each once. */
  lemma {:induction false} DiffColumnsOrdered(a: seq<Column>, bNames: seq<string>, key: string)
    requires Distinct(Names(a))
    ensures OrderedIn(DiffColumns(a, bNames, key), Names(a))
  {
    if a != [] {
      var names := Names(a);
      assert Names(a[1..]) == names[1..];
      DiffColumnsOrdered(a[1..], bNames, key);
      var rest := DiffColumns(a[1..], bNames, key);
      if DiffColumns(a, bNames, key) == rest {
        OrderedInTail(rest, names);
      } else {
        OrderedInCons(rest, names);
      }
    }
  }

  function DiffName(c: string): string {
    c + "_diff"
  }

  function PairedName(c: string): string {
    c + "_b"
  }

  function DiffNames(cols: seq<string>): (r: seq<string>)
    ensures |r| == |cols|
  {
    seq(|cols|, k requires 0 <= k < |cols| => DiffName(cols[k]))
  }

  lemma SuffixCancels(x: string, y: string, suffix: string)
    requires x + suffix == y + suffix
    ensures x == y
  {
    assert |x| == |y|;
    assert x == (x + suffix)[..|x|];
    assert y == (y + suffix)[..|y|];
  }

  /** Distinct columns get distinct difference-column names. */
  lemma DiffNamesDistinct(cols: seq<string>)
    requires Distinct(cols)
    ensures Distinct(DiffNames(cols))
  {
    var d := DiffNames(cols);
    forall i, j | 0 <= i < j < |d| ensures d[i] != d[j] {
      if d[i] == d[j] {
        SuffixCancels(cols[i], cols[j], "_diff");
      }
    }
  }

  function ToReal(c: Cell): real
    requires c.IntCell? || c.FloatCell?
  {
    if c.IntCell? then c.i as real else c.f
  }

  const Int64Half: int := 0x8000_0000_0000_0000
  const Int64Span: int := 0x1_0000_0000_0000_0000

  /**
   * Int64 arithmetic wraps around: the signed 64-bit value congruent to `v` modulo 2^64,
   * which is `v` itself whenever `v` fits.
   */
  function WrapInt64(v: int): (r: int)
    ensures -Int64Half <= r < Int64Half
    ensures r % Int64Span == v % Int64Span
    ensures -Int64Half <= v < Int64Half ==> r == v
  {
    (v + Int64Half) % Int64Span - Int64Half
  }

  /**
   * Column subtraction on one row: missing on either side gives a missing difference; two
   * Int64 values subtract with wrap-around.
   */
  function Subtract(x: Cell, y: Cell): (r: Cell)
    ensures x.Null? || y.Null? ==> r == Null
    ensures x.IntCell? && y.IntCell? ==> r.IntCell? && -Int64Half <= r.i < Int64Half
    ensures x.IntCell? && y.IntCell? && -Int64Half <= x.i - y.i < Int64Half ==> r == IntCell(x.i - y.i)
    ensures x.IntCell? && y.IntCell? ==> r.IntCell? && r.i % Int64Span == (x.i - y.i) % Int64Span
    ensures (x.FloatCell? && (y.IntCell? || y.FloatCell?)) || (x.IntCell? && y.FloatCell?)
            ==> r == FloatCell(ToReal(x) - ToReal(y))
  {
    if x.Null? || y.Null? then Null
    else if x.IntCell? && y.IntCell? then IntCell(WrapInt64(x.i - y.i))
    else if (x.IntCell? || x.FloatCell?) && (y.IntCell? || y.FloatCell?) then FloatCell(ToReal(x) - ToReal(y))
    else Null  // a non-numeric cell cannot sit in a numeric column of a well-formed table
  }

  /** `col - col_b` can be evaluated on `j` and its alias `col_diff` is a fresh name. */
  predicate DiffReady(j: Table, c: string) {
    && c in Names(j.columns) && PairedName(c) in Names(j.columns)
    && IsNumeric(TypeOf(j.columns, c)) && IsNumeric(TypeOf(j.columns, PairedName(c)))
    && DiffName(c) !in Names(j.columns)
  }

  /** The first reason the difference expressions cannot be evaluated on the joined table. */
  function DiffProblem(j: Table, cols: seq<string>): (r: Option<Error>)
    ensures r.None? <==> forall k :: 0 <= k < |cols| ==> DiffReady(j, cols[k])
  {
    if cols == [] then None
    else
      var c := cols[0];
      if c !in Names(j.columns) then Some(ColumnNotFound(c))
      else if PairedName(c) !in Names(j.columns) then Some(ColumnNotFound(PairedName(c)))
      else if !IsNumeric(TypeOf(j.columns, c)) || !IsNumeric(TypeOf(j.columns, PairedName(c))) then Some(InvalidOperation(c))
      else if DiffName(c) in Names(j.columns) then Some(DuplicateColumn(DiffName(c)))
      else
        var r := DiffProblem(j, cols[1..]);
        assert r.None? ==> forall k :: 0 <= k < |cols| ==> DiffReady(j, cols[k]) by {
          if r.None? {
            forall k | 0 < k < |cols| ensures DiffReady(j, cols[k]) {
              assert cols[k] == cols[1..][k - 1];
            }
          }
        }
        r
  }

  /** The type of `col - col_b`: integer when both are integers, floating otherwise. */
  function DiffType(j: Table, c: string): DType
    requires DiffReady(j, c)
  {
    if TypeOf(j.columns, c) == Int64 && TypeOf(j.columns, PairedName(c)) == Int64 then Int64 else Float64
  }

  /** `col - col_b` on one joined row. */
  function DiffCell(j: Table, row: Row, c: string): Cell
    requires |row| == |j.columns| && DiffReady(j, c)
  {
    Subtract(At(j, row, c), At(j, row, PairedName(c)))
  }

  /** The differences of one joined row, one per difference column. */
  function DiffCells(j: Table, row: Row, cols: seq<string>): (r: Row)
    requires |row| == |j.columns| && forall k :: 0 <= k < |cols| ==> DiffReady(j, cols[k])
    ensures |r| == |cols|
    ensures forall k :: 0 <= k < |cols| ==> r[k] == DiffCell(j, row, cols[k])
  {
    seq(|cols|, k requires 0 <= k < |cols| => DiffCell(j, row, cols[k]))
  }

  /**
   * `compare_datasets` on the result of the outer join of A and B on `key` (the join is the
   * dataframe library's and is given as `joined`): every joined column, then one
   * `<col>_diff` per diff column, holding the joined `col` minus the joined `col_b`.
   */
  function CompareDatasets(a: Table, b: Table, key: string, joined: Result<Table>): (r: Result<Table>)
    requires joined.Ok? ==> WellFormed(joined.value)
    ensures joined.Err? ==> r == joined
    ensures joined.Ok? ==>
              var cols := DiffColumns(a.columns, Names(b.columns), key);
              && (r.Ok? <==> DiffProblem(joined.value, cols).None?)
              && (r.Err? ==> r.error == DiffProblem(joined.value, cols).value)
              && (r.Ok? ==> Names(r.value.columns) == Names(joined.value.columns) + DiffNames(cols)
                            && |r.value.rows| == |joined.value.rows|)
  {
    match joined
    case Err(e) => Err(e)
    case Ok(j) =>
      var cols := DiffColumns(a.columns, Names(b.columns), key);
      match DiffProblem(j, cols)
      case Some(e) => Err(e)
      case None => Ok(WithDiffs(j, cols))
  }

  /** The `<col>_diff` columns, each typed by its subtraction. */
  function DiffSchema(j: Table, cols: seq<string>): (r: seq<Column>)
    requires forall k :: 0 <= k < |cols| ==> DiffReady(j, cols[k])
    ensures |r| == |cols|
    ensures forall k :: 0 <= k < |cols| ==> r[k] == Column(DiffName(cols[k]), DiffType(j, cols[k]))
  {
    seq(|cols|, k requires 0 <= k < |cols| => Column(DiffName(cols[k]), DiffType(j, cols[k])))
  }

  /** The joined table with one difference column appended per name in `cols`. */
  function WithDiffs(j: Table, cols: seq<string>): (r: Table)
    requires WellFormed(j)
    requires forall k :: 0 <= k < |cols| ==> DiffReady(j, cols[k])
    ensures Names(r.columns) == Names(j.columns) + DiffNames(cols)
    ensures |r.rows| == |j.rows|
    ensures r.columns == j.columns + DiffSchema(j, cols)
    ensures forall i :: 0 <= i < |j.rows| ==> r.rows[i] == j.rows[i] + DiffCells(j, j.rows[i], cols)
  {
    var diffCols := DiffSchema(j, cols);
    assert Names(j.columns + diffCols) == Names(j.columns) + DiffNames(cols);
    Table(j.columns + diffCols, seq(|j.rows|, i requires 0 <= i < |j.rows| => j.rows[i] + DiffCells(j, j.rows[i], cols)))
  }

  /**
   * Each output row is the joined row followed by, for every difference column `c`, the
   * joined `c` minus the joined `c_b`.
   */
  lemma CompareRows(a: Table, b: Table, key: string, joined: Result<Table>, i: nat, k: nat)
    requires joined.Ok? && WellFormed(joined.value) && CompareDatasets(a, b, key, joined).Ok?
    requires i < |joined.value.rows| && k < |DiffColumns(a.columns, Names(b.columns), key)|
    ensures var j, c, out := joined.value, DiffColumns(a.columns, Names(b.columns), key)[k],
                             CompareDatasets(a, b, key, joined).value;
            && c in Names(j.columns) && PairedName(c) in Names(j.columns)
            && out.rows[i][..|j.columns|] == j.rows[i]
            && out.rows[i][|j.columns| + k] == Subtract(At(j, j.rows[i], c), At(j, j.rows[i], PairedName(c)))
  {
    var cols := DiffColumns(a.columns, Names(b.columns), key);
    assert DiffReady(joined.value, cols[k]);
  }

  /** The comparison table is well formed when A's column names are unique. */
  lemma CompareWellFormed(a: Table, b: Table, key: string, joined: Result<Table>)
    requires WellFormed(a) && joined.Ok? && WellFormed(joined.value)
    requires CompareDatasets(a, b, key, joined).Ok?
    ensures WellFormed(CompareDatasets(a, b, key, joined).value)
  {
    var j, cols := joined.value, DiffColumns(a.columns, Names(b.columns), key);
    var out := WithDiffs(j, cols);
    CompareNamesDistinct(a, b, key, j);
    forall i | 0 <= i < |out.rows| ensures RowFits(out.rows[i], out.columns) {
      DiffRowFits(j, cols, i);
    }
  }

  lemma CompareNamesDistinct(a: Table, b: Table, key: string, j: Table)
    requires WellFormed(a) && WellFormed(j)
    requires DiffProblem(j, DiffColumns(a.columns, Names(b.columns), key)).None?
    ensures Distinct(Names(j.columns) + DiffNames(DiffColumns(a.columns, Names(b.columns), key)))
  {
    var cols := DiffColumns(a.columns, Names(b.columns), key);
    DiffColumnsOrdered(a.columns, Names(b.columns), key);
    OrderedDistinct(cols, Names(a.columns));
    DiffNamesDistinct(cols);
    var names, diffs := Names(j.columns), DiffNames(cols);
    forall p, q | 0 <= p < |names| && 0 <= q < |diffs| ensures names[p] != diffs[q] {
      assert DiffReady(j, cols[q]);
    }
    DistinctAppend(names, diffs);
  }

  lemma DiffRowFits(j: Table, cols: seq<string>, i: nat)
    requires WellFormed(j) && i < |j.rows|
    requires forall k :: 0 <= k < |cols| ==> DiffReady(j, cols[k])
    ensures RowFits(WithDiffs(j, cols).rows[i], WithDiffs(j, cols).columns)
  {
    assert RowFits(j.rows[i], j.columns);
    DiffCellsFit(j, cols, i);
    RowFitsAppend(j.rows[i], j.columns, DiffCells(j, j.rows[i], cols), DiffSchema(j, cols));
  }

  /** The diff cells of a joined row fit the diff columns. */
  lemma DiffCellsFit(j: Table, cols: seq<string>, i: nat)
    requires WellFormed(j) && i < |j.rows|
    requires forall k :: 0 <= k < |cols| ==> DiffReady(j, cols[k])
    ensures RowFits(DiffCells(j, j.rows[i], cols), DiffSchema(j, cols))
  {
    forall m | 0 <= m < |cols| ensures Fits(DiffCells(j, j.rows[i], cols)[m], DiffSchema(j, cols)[m].dtype) {
      DiffCellFits(j, i, cols[m]);
    }
  }

  lemma DiffCellFits(j: Table, i: nat, c: string)
    requires WellFormed(j) && i < |j.rows| && DiffReady(j, c)
    ensures Fits(DiffCell(j, j.rows[i], c), DiffType(j, c))
  {
    var p, q := IndexOf(Names(j.columns), c), IndexOf(Names(j.columns), PairedName(c));
    assert RowFits(j.rows[i], j.columns);
    assert Fits(j.rows[i][p], j.columns[p].dtype) && Fits(j.rows[i][q], j.columns[q].dtype);
  }
}
