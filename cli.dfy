/**
 * src/cli.py: the `chart` command. It loads a file, reshapes and filters the table in a fixed
 * order, resolves the export format from the output name, and hands the table to a renderer.
 * The argument parsing it does by hand (suffixes, `COL:V1,V2` expressions, comma lists) is
 * modelled exactly; the table operations it delegates to are parameters.
 */
module Cli {
  import opened Base
  import opened Text
  import opened Lists
  import opened Tables
  import opened GraphTypes
  import opened Engine
  import Factory
  import PlotlyRenderer

  // ---------------------------------------------------------------- _get_export_format

  /** pathlib's `name`: the last component of a POSIX path that is neither empty nor `.`. */
  function PathName(path: string): string {
    LastName(Split(path, '/'))
  }

  function LastName(parts: seq<string>): string {
    if parts == [] then ""
    else
      var last := parts[|parts| - 1];
      if last == "" || last == "." then LastName(parts[..|parts| - 1]) else last
  }

  /**
   * pathlib's `suffix`: from the last `.` of the name to its end, provided that dot neither
   * starts nor ends the name; otherwise empty.
   */
  function Suffix(name: string): (r: string)
    ensures r == [] || (|r| >= 2 && r[0] == '.' && '.' !in r[1..] && EndsWith(name, r) && |r| < |name|)
  {
    match LastIndexOf(name, '.')
    case None => ""
    case Some(i) =>
      if 0 < i < |name| - 1 then
        assert name[i..][1..] == name[i + 1..];
        name[i..]
      else ""
  }

  /** The extension each export format is chosen by. */
  function FormatSuffix(f: ExportFormat): string {
    "." + FormatValue(f)
  }

  /** The format a suffix selects: `.html`, `.png`, `.pdf` or `.svg`, nothing else. */
  function FormatOfSuffix(suffix: string): (r: Option<ExportFormat>)
    ensures r.Some? ==> suffix == FormatSuffix(r.value)
    ensures r.None? ==> forall f :: suffix != FormatSuffix(f)
  {
    if suffix == FormatSuffix(Html) then Some(Html)
    else if suffix == FormatSuffix(Png) then Some(Png)
    else if suffix == FormatSuffix(Pdf) then Some(Pdf)
    else if suffix == FormatSuffix(Svg) then Some(Svg)
    else None
  }

  /** Each format is selected by its own suffix. */
  lemma FormatOfSuffixRoundTrip(f: ExportFormat)
    ensures FormatOfSuffix(FormatSuffix(f)) == Some(f)
  {
    assert FormatSuffix(Html) == ".html" && FormatSuffix(Png) == ".png";
    assert FormatSuffix(Pdf) == ".pdf" && FormatSuffix(Svg) == ".svg";
    match f
    case Html =>
    case Png =>
    case Pdf => assert ".pdf"[2] != ".png"[2];
    case Svg => assert ".svg"[1] != ".png"[1] && ".svg"[1] != ".pdf"[1];
  }

  /** The lower-cased suffix of the output path. */
  function OutputSuffix(output: string): string {
    Lower(Suffix(PathName(output)))
  }

  /** `_get_export_format`: the format named by the lower-cased suffix of the output path. */
  function ExportFormatOf(output: string): (r: Result<ExportFormat>)
    ensures r.Ok? ==> OutputSuffix(output) == FormatSuffix(r.value)
    ensures r.Err? ==> && r.error == UnsupportedOutputFormat(OutputSuffix(output))
                       && forall f :: OutputSuffix(output) != FormatSuffix(f)
  {
    var suffix := OutputSuffix(output);
    match FormatOfSuffix(suffix)
    case Some(f) => Ok(f)
    case None => Err(UnsupportedOutputFormat(suffix))
  }

  /** A format's extension, in any letter case, holds neither `.` nor `/`. */
  lemma ExtensionPlain(ext: string, f: ExportFormat)
    requires Lower(ext) == FormatValue(f)
    ensures ext != [] && '.' !in ext && '/' !in ext
  {
    forall k | 0 <= k < |ext| ensures ext[k] != '.' && ext[k] != '/' {
      assert Lower(ext)[k] == LowerChar(ext[k]);
    }
  }

  /** A path without `/` that is neither empty nor `.` is its own name. */
  lemma {:induction false} PathNameOfName(name: string)
    requires '/' !in name && name != "" && name != "."
    ensures PathName(name) == name
  {
    SplitWithoutSep(name, '/');
    assert LastName([name]) == name;
  }

  /** The suffix of `stem.ext` is `.ext` when the stem is non-empty and the extension plain. */
  lemma SuffixOfExtension(stem: string, ext: string)
    requires stem != "" && ext != "" && '.' !in ext
    ensures Suffix(stem + "." + ext) == "." + ext
  {
    var name := stem + "." + ext;
    assert name[|stem|] == '.';
    assert name[|stem| + 1..] == ext;
    var i := LastIndexOf(name, '.').value;
    assert i == |stem|;
    assert name[|stem|..] == "." + ext;
  }

  /**
   * A file name made of a non-empty stem and the extension of a format, in any letter case,
   * exports in that format.
   */
  lemma ExportFormatRoundTrip(stem: string, ext: string, f: ExportFormat)
    requires stem != "" && '/' !in stem && Lower(ext) == FormatValue(f)
    ensures ExportFormatOf(stem + "." + ext) == Ok(f)
  {
    var name := stem + "." + ext;
    ExtensionPlain(ext, f);
    assert '/' !in name by {
      assert name == stem + ("." + ext);
    }
    PathNameOfName(name);
    SuffixOfExtension(stem, ext);
    LowerAppend(".", ext);
    assert OutputSuffix(name) == FormatSuffix(f);
    FormatOfSuffixRoundTrip(f);
  }

  // ---------------------------------------------------------------- option parsing

  /** `[v.strip() for v in s.split(",")]`. */
  function CommaList(s: string): (r: seq<string>)
    ensures |r| >= 1
  {
    StripAll(Split(s, ','))
  }

  /** A parsed `COL:VAL1,VAL2,...` expression. */
  datatype RowExpr = RowExpr(column: string, values: seq<string>)

  /**
   * A `--filter` or `--exclude` expression split at its first `:`: the column is the text
   * before it, as written; the values are the comma list after it.
   */
  function ParseRowExpr(expr: string): (r: Option<RowExpr>)
    ensures r.None? <==> ':' !in expr
  {
    match SplitOnce(expr, ':')
    case None => None
    case Some((column, rest)) => Some(RowExpr(column, CommaList(rest)))
  }

  /** A parsed expression's column is the text before its first colon, its values the rest. */
  lemma ParseRowExprParts(expr: string)
    requires ':' in expr
    ensures var e := ParseRowExpr(expr).value; var n := |e.column|;
      && n < |expr| && expr[..n] == e.column && expr[n] == ':' && ':' !in e.column
      && e.values == CommaList(expr[n + 1..])
  {
    SplitOnceParts(expr, ':');
    var p := SplitOnce(expr, ':').value;
    assert expr[..|p.0|] == p.0 && expr[|p.0| + 1..] == p.1;
  }

  /** Only the first colon splits: later colons stay inside the values. */
  lemma ColonsInValues(column: string, rest: string)
    requires ':' !in column
    ensures ParseRowExpr(column + ":" + rest) == Some(RowExpr(column, CommaList(rest)))
  {
    var expr := column + ":" + rest;
    assert expr[|column|] == ':';
    ParseRowExprParts(expr);
    var n := |ParseRowExpr(expr).value.column|;
    assert n == |column|;
    assert expr[..n] == column && expr[n + 1..] == rest;
  }

  /** `--id-cols`: its comma list, or no identifiers when it is absent or empty. */
  function IdColumns(idCols: Option<string>): (r: Option<seq<string>>)
    ensures r.None? <==> idCols.None? || idCols.value == ""
    ensures r.Some? ==> r.value == CommaList(idCols.value)
  {
    if idCols.None? || idCols.value == "" then None else Some(CommaList(idCols.value))
  }

  /** The lists `f` gives for the items, one after the other. */
  function Concat<T, U>(items: seq<T>, f: T -> seq<U>): (r: seq<U>)
  {
    if items == [] then []
    else Concat(items[..|items| - 1], f) + f(items[|items| - 1])
  }

  /** One more item adds its list at the end. */
  lemma ConcatNext<T, U>(items: seq<T>, f: T -> seq<U>, i: nat)
    requires i < |items|
    ensures Concat(items[..i + 1], f) == Concat(items[..i], f) + f(items[i])
  {
    assert items[..i + 1][..i] == items[..i];
  }

  /** An element of the concatenation comes from one of the items' lists, and each of them is there. */
  lemma {:induction false} ConcatMembers<T, U>(items: seq<T>, f: T -> seq<U>, c: U)
    ensures c in Concat(items, f) <==> exists i :: 0 <= i < |items| && c in f(items[i])
  {
    if items != [] {
      var init := items[..|items| - 1];
      ConcatMembers(init, f, c);
      if exists i :: 0 <= i < |init| && c in f(init[i]) {
        var i :| 0 <= i < |init| && c in f(init[i]);
        assert items[i] == init[i];
      }
      if exists i :: 0 <= i < |items| && c in f(items[i]) {
        var i :| 0 <= i < |items| && c in f(items[i]);
        if i < |init| {
          assert items[i] == init[i];
        }
      }
    }
  }

  /** Every item gives at least one column (`"".split(",")` is `[""]`). */
  lemma {:induction false} FacetCount(items: seq<string>)
    ensures |Concat(items, CommaList)| >= |items|
  {
    if items != [] {
      FacetCount(items[..|items| - 1]);
    }
  }

  /** A facet column comes from one of the items, and every column of every item is there. */
  lemma FacetMembers(items: seq<string>, c: string)
    ensures c in Concat(items, CommaList) <==> exists i :: 0 <= i < |items| && c in CommaList(items[i])
  {
    ConcatMembers(items, CommaList, c);
  }

  /** The facet list: none without `--facets`, else the items' comma lists one after the other. */
  function FacetList(facets: Option<seq<string>>): Option<seq<string>> {
    if facets.None? then None else Some(Concat(facets.value, CommaList))
  }

  /** The loop that builds the facet list, extending it item by item. */
  method FacetColumns(facets: Option<seq<string>>) returns (r: Option<seq<string>>)
    ensures r == FacetList(facets)
  {
    if facets.None? {
      return None;
    }
    var items := facets.value;
    var columns: seq<string> := [];
    var i := 0;
    while i < |items|
      invariant 0 <= i <= |items|
      invariant columns == Concat(items[..i], CommaList)
    {
      ConcatNext(items, CommaList, i);
      columns := columns + CommaList(items[i]);
      i := i + 1;
    }
    assert items[..i] == items;
    return Some(columns);
  }

  // ---------------------------------------------------------------- the chart command

  /** The options of `chart`; an option not given is `None`. */
  datatype ChartArgs = ChartArgs(
    file: string, chartType: ChartType, x: string, y: seq<string>, output: string,
    title: Option<string>, color: Option<string>, renderer: string,
    idCols: Option<string>, valueStart: Option<int>, valueEnd: Option<int>,
    varName: string, valueName: string,
    lookup: Option<string>, lookupColumn: Option<string>, lookupCodeCol: Option<string>,
    lookupLabelCol: Option<string>,
    filters: Option<seq<string>>, excludes: Option<seq<string>>, dropCols: Option<string>,
    facets: Option<seq<string>>)

  /**
   * The table operations the command delegates: the file readers, and `apply_lookup`,
   * `filter_data`, `exclude_values` and `drop_columns`.
   */
  datatype Ops = Ops(
    read: (FileFormat, Source) -> Result<Table>,
    applyLookup: (Table, Table, string, string, string) -> Result<Table>,
    filter: (Table, string, seq<string>) -> Result<Table>,
    exclude: (Table, string, seq<string>) -> Result<Table>,
    drop: (Table, seq<string>) -> Result<Table>)

  datatype RowOp = Keep | Remove

  /** The operations the command performs, as they happen. */
  datatype Step =
    | Load(path: string)
    | Reshape
    | LoadLookup(path: string)
    | Lookup
    | RowStep(op: RowOp, expr: string)
    | DropStep
    | GetRendererStep(name: string)
    | Draw
    | Save(path: string)

  /** An outcome and the steps performed to reach it. */
  datatype Run<T> = Run(result: Result<T>, log: seq<Step>)

  /**
   * A run keeps to a plan: its steps are the plan's first steps, and all of them when it
   * succeeds.
   */
  predicate Follows<T>(run: Run<T>, plan: seq<Step>) {
    IsPrefix(run.log, plan) && (run.result.Ok? ==> run.log == plan)
  }

  /** A failed run that keeps to a plan keeps to any longer one. */
  lemma FollowsFailed<T>(run: Run<T>, plan: seq<Step>, more: seq<Step>)
    requires run.result.Err? && Follows(run, plan)
    ensures Follows(run, plan + more)
  {
    PrefixAppend(run.log, plan, more);
  }

  /** Completing `first` and then a run that keeps to `second` keeps to both plans in turn. */
  lemma FollowsThen<T>(first: seq<Step>, next: Run<T>, second: seq<Step>)
    requires Follows(next, second)
    ensures Follows(Run(next.result, first + next.log), first + second)
  {
    PrefixAppend(first, second, next.log);
  }

  /** The `create_chart` call the command makes. */
  datatype ChartRequest = ChartRequest(
    df: Table, chartType: ChartType, x: string, y: seq<string>,
    title: Option<string>, color: Option<string>, facetColumns: Option<seq<string>>)

  /** What the renderer drew: a Plotly Express figure, or whatever a registered class makes. */
  datatype Drawing =
    | PlotlyFigure(call: PlotlyRenderer.PxCall<Option<seq<string>>>)
    | CustomFigure(cls: Factory.RendererClass, request: ChartRequest)

  /** The table a drawing was made from. */
  function DrawnTable(d: Drawing): Table {
    match d
    case PlotlyFigure(call) => call.df
    case CustomFigure(_, request) => request.df
  }

  /** A drawing exported to a path in a format. */
  datatype Saved = Saved(drawing: Drawing, path: string, format: ExportFormat)

  predicate UnpivotRequested(args: ChartArgs) {
    args.idCols.Some? || args.valueStart.Some?
  }

  /** Python truthiness of an optional string: given and not empty. */
  predicate Present(o: Option<string>) {
    o.Some? && o.value != ""
  }

  predicate LookupComplete(args: ChartArgs) {
    Present(args.lookupColumn) && Present(args.lookupCodeCol) && Present(args.lookupLabelCol)
  }

  /** The readers produce well-formed tables for the input file. */
  predicate LoadedWellFormed(args: ChartArgs, ops: Ops) {
    var loaded := LoadData(PathSource(args.file), ops.read);
    loaded.Ok? ==> WellFormed(loaded.value)
  }

  /** The lookup stage: refused unless all three lookup columns are named, then load and apply. */
  function LookupStage(args: ChartArgs, ops: Ops, t: Table): (r: Run<Table>)
    ensures args.lookup.None? ==> r == Run(Ok(t), [])
    ensures args.lookup.Some? && !LookupComplete(args) ==> r == Run(Err(MissingLookupOptions), [])
    ensures Follows(r, LookupPlan(args))
  {
    if args.lookup.None? then Run(Ok(t), [])
    else if !LookupComplete(args) then Run(Err(MissingLookupOptions), [])
    else
      match LoadData(PathSource(args.lookup.value), ops.read)
      case Err(e) => Run(Err(e), [LoadLookup(args.lookup.value)])
      case Ok(codes) =>
        Run(ops.applyLookup(t, codes, args.lookupColumn.value, args.lookupCodeCol.value, args.lookupLabelCol.value),
            [LoadLookup(args.lookup.value), Lookup])
  }

  function RowOpCall(ops: Ops, op: RowOp, t: Table, e: RowExpr): Result<Table> {
    if op == Keep then ops.filter(t, e.column, e.values) else ops.exclude(t, e.column, e.values)
  }

  function BadRowExpr(op: RowOp, expr: string): Error {
    if op == Keep then InvalidFilterFormat(expr) else InvalidExcludeFormat(expr)
  }

  /**
   * One expression: refused when it has no `:`; otherwise the filter (or exclusion) is
   * applied to the table, which is one step.
   */
  function ApplyRowExpr(ops: Ops, op: RowOp, t: Table, expr: string): (r: Run<Table>)
    ensures r.result.Err? || r.log == [RowStep(op, expr)]
    ensures ':' !in expr <==> r.log == []
    ensures ':' !in expr ==> r.result == Err(BadRowExpr(op, expr))
  {
    match ParseRowExpr(expr)
    case None => Run(Err(BadRowExpr(op, expr)), [])
    case Some(e) => Run(RowOpCall(ops, op, t, e), [RowStep(op, expr)])
  }

  /** The expressions applied in the order given, each to the previous result. */
  function ApplyRowExprs(ops: Ops, op: RowOp, t: Table, exprs: seq<string>): Run<Table> {
    if exprs == [] then Run(Ok(t), [])
    else
      var prev := ApplyRowExprs(ops, op, t, exprs[..|exprs| - 1]);
      if prev.result.Err? then prev
      else
        var one := ApplyRowExpr(ops, op, prev.result.value, exprs[|exprs| - 1]);
        Run(one.result, prev.log + one.log)
  }

  /** Once an expression fails, the later ones change nothing. */
  lemma {:induction false} RowExprsStopAtError(ops: Ops, op: RowOp, t: Table, exprs: seq<string>, i: nat)
    requires i <= |exprs| && ApplyRowExprs(ops, op, t, exprs[..i]).result.Err?
    ensures ApplyRowExprs(ops, op, t, exprs) == ApplyRowExprs(ops, op, t, exprs[..i])
    decreases |exprs| - i
  {
    if i < |exprs| {
      assert exprs[..i + 1][..i] == exprs[..i];
      RowExprsStopAtError(ops, op, t, exprs, i + 1);
    } else {
      assert exprs[..i] == exprs;
    }
  }

  /** Applying one more expression: the next one, to the result so far. */
  lemma RowExprsNext(ops: Ops, op: RowOp, t: Table, exprs: seq<string>, i: nat)
    requires i < |exprs| && ApplyRowExprs(ops, op, t, exprs[..i]).result.Ok?
    ensures var prev := ApplyRowExprs(ops, op, t, exprs[..i]);
      var one := ApplyRowExpr(ops, op, prev.result.value, exprs[i]);
      ApplyRowExprs(ops, op, t, exprs[..i + 1]) == Run(one.result, prev.log + one.log)
  {
    assert exprs[..i + 1][..i] == exprs[..i];
  }

  /** One turn of the loop: a failure is the outcome of all the expressions, a success the next table. */
  lemma RowExprsAdvance(ops: Ops, op: RowOp, t: Table, exprs: seq<string>, i: nat, df: Table, log: seq<Step>)
    requires i < |exprs| && ApplyRowExprs(ops, op, t, exprs[..i]) == Run(Ok(df), log)
    ensures var one := ApplyRowExpr(ops, op, df, exprs[i]);
      && (one.result.Err? ==> ApplyRowExprs(ops, op, t, exprs) == Run(one.result, log + one.log))
      && (one.result.Ok? ==> ApplyRowExprs(ops, op, t, exprs[..i + 1]) == Run(one.result, log + one.log))
  {
    RowExprsNext(ops, op, t, exprs, i);
    if ApplyRowExpr(ops, op, df, exprs[i]).result.Err? {
      RowExprsStopAtError(ops, op, t, exprs, i + 1);
    }
  }

  /** One expression: its table operation, or the refusal of an expression without `:`. */
  method ApplyOne(ops: Ops, op: RowOp, df: Table, expr: string) returns (r: Result<Table>, log: seq<Step>)
    ensures Run(r, log) == ApplyRowExpr(ops, op, df, expr)
  {
    var parsed := ParseRowExpr(expr);
    if parsed.None? {
      return Err(BadRowExpr(op, expr)), [];
    }
    r := RowOpCall(ops, op, df, parsed.value);
    log := [RowStep(op, expr)];
  }

  /** The loop over `--filter` (or `--exclude`) expressions, reassigning the table each time. */
  method RunRowExprs(ops: Ops, op: RowOp, t: Table, exprs: seq<string>) returns (r: Result<Table>, log: seq<Step>)
    ensures Run(r, log) == ApplyRowExprs(ops, op, t, exprs)
  {
    var df := t;
    log := [];
    var i := 0;
    while i < |exprs|
      invariant 0 <= i <= |exprs|
      invariant ApplyRowExprs(ops, op, t, exprs[..i]) == Run(Ok(df), log)
    {
      var next, steps := ApplyOne(ops, op, df, exprs[i]);
      RowExprsAdvance(ops, op, t, exprs, i, df, log);
      log := log + steps;
      if next.Err? {
        return next, log;
      }
      df := next.value;
      i := i + 1;
    }
    assert exprs[..i] == exprs;
    return Ok(df), log;
  }

  /** The steps the expressions run when they all succeed. */
  function RowPlan(op: RowOp, exprs: seq<string>): (r: seq<Step>)
    ensures |r| == |exprs|
    ensures forall i :: 0 <= i < |exprs| ==> r[i] == RowStep(op, exprs[i])
  {
    seq(|exprs|, i requires 0 <= i < |exprs| => RowStep(op, exprs[i]))
  }

  lemma RowPlanSnoc(op: RowOp, exprs: seq<string>)
    requires exprs != []
    ensures var n := |exprs| - 1; RowPlan(op, exprs) == RowPlan(op, exprs[..n]) + [RowStep(op, exprs[n])]
  {
    var n := |exprs| - 1;
    assert forall i :: 0 <= i < n ==> RowPlan(op, exprs)[i] == RowPlan(op, exprs[..n])[i];
  }

  /** The expressions run in order, one step each, stopping at the first failure. */
  lemma {:induction false} RowExprsPlan(ops: Ops, op: RowOp, t: Table, exprs: seq<string>)
    ensures var run := ApplyRowExprs(ops, op, t, exprs);
      && IsPrefix(run.log, RowPlan(op, exprs))
      && (run.result.Ok? ==> run.log == RowPlan(op, exprs))
  {
    if exprs != [] {
      var n := |exprs| - 1;
      var init := exprs[..n];
      RowExprsPlan(ops, op, t, init);
      var prev := ApplyRowExprs(ops, op, t, init);
      RowPlanSnoc(op, exprs);
      PrefixAppend(prev.log, RowPlan(op, init), [RowStep(op, exprs[n])]);
      if prev.result.Ok? {
        RowExprsNext(ops, op, t, exprs, n);
        var one := ApplyRowExpr(ops, op, prev.result.value, exprs[n]);
        if one.log == [] {
          assert IsPrefix(one.log, [RowStep(op, exprs[n])]);
        }
        PrefixAppend(prev.log, [RowStep(op, exprs[n])], one.log);
      } else {
        RowExprsStopAtError(ops, op, t, exprs, n);
      }
    }
  }

  /** The drawing the renderer makes: the Plotly renderer's chart, or a registered class's. */
  function DrawChart(renderer: Factory.Renderer, request: ChartRequest): (r: Result<Drawing>)
    ensures renderer.cls.CustomClass? ==> r == Ok(CustomFigure(renderer.cls, request))
    ensures r.Err? <==> && renderer.cls.PlotlyRendererClass? && request.y == []
                        && (request.chartType == Scatter || request.chartType == Pie)
    ensures r.Err? ==> r.error == IndexError
    ensures r.Ok? ==> (r.value.PlotlyFigure? <==> renderer.cls.PlotlyRendererClass?)
    ensures r.Ok? && r.value.PlotlyFigure? ==>
              && r.value.call.df == request.df && PlotlyRenderer.CallKind(r.value.call) == request.chartType
              && r.value.call.title == request.title && r.value.call.kwargs == request.facetColumns
  {
    match renderer.cls
    case PlotlyRendererClass =>
      (match PlotlyRenderer.CreateChart(request.df, PlotlyRenderer.Known(request.chartType), request.x,
                                        PlotlyRenderer.YColumns(request.y), request.title, request.color,
                                        request.facetColumns)
       case Err(e) => Err(e)
       case Ok(call) => Ok(PlotlyFigure(call)))
    case CustomClass(_) => Ok(CustomFigure(renderer.cls, request))
  }

  /** The reshaping stage: `unpivot_data` when identifier columns or a value range are given. */
  function ReshapeStage(args: ChartArgs, t: Table): (r: Run<Table>)
    requires WellFormed(t)
    ensures UnpivotRequested(args) <==> r.log == [Reshape]
    ensures !UnpivotRequested(args) ==> r == Run(Ok(t), [])
    ensures Follows(r, ReshapePlan(args))
  {
    if UnpivotRequested(args) then
      Run(UnpivotData(t, IdColumns(args.idCols), args.valueStart, args.valueEnd, args.varName, args.valueName),
          [Reshape])
    else Run(Ok(t), [])
  }

  /** `prev` followed by a stage run on its table. */
  function Then(prev: Run<Table>, next: Run<Table>): Run<Table>
    requires prev.result.Ok?
  {
    Run(next.result, prev.log + next.log)
  }

  /** The stages that change the table's shape: load, unpivot, lookup. */
  function Early(args: ChartArgs, ops: Ops): Run<Table>
    requires LoadedWellFormed(args, ops)
  {
    var loaded := LoadData(PathSource(args.file), ops.read);
    var start := Run(loaded, [Load(args.file)]);
    if loaded.Err? then start
    else
      var reshaped := Then(start, ReshapeStage(args, loaded.value));
      if reshaped.result.Err? then reshaped
      else Then(reshaped, LookupStage(args, ops, reshaped.result.value))
  }

  /** The column drop, when `--drop-cols` is given. */
  function DropStage(args: ChartArgs, ops: Ops, t: Table): (r: Run<Table>)
    ensures args.dropCols.None? ==> r == Run(Ok(t), [])
    ensures Follows(r, DropPlan(args))
  {
    if args.dropCols.Some? then Run(ops.drop(t, CommaList(args.dropCols.value)), [DropStep])
    else Run(Ok(t), [])
  }

  /** The stages that select rows and columns: filters, exclusions, column drop. */
  function Late(args: ChartArgs, ops: Ops, t: Table): Run<Table> {
    var kept := ApplyRowExprs(ops, Keep, t, args.filters.GetOr([]));
    if kept.result.Err? then kept
    else
      var removed := Then(kept, ApplyRowExprs(ops, Remove, kept.result.value, args.excludes.GetOr([])));
      if removed.result.Err? then removed
      else Then(removed, DropStage(args, ops, removed.result.value))
  }

  /** The data stages: load, unpivot, lookup, filters, excludes, column drop. */
  function Prepare(args: ChartArgs, ops: Ops): Run<Table>
    requires LoadedWellFormed(args, ops)
  {
    var early := Early(args, ops);
    if early.result.Err? then early else Then(early, Late(args, ops, early.result.value))
  }

  /**
   * The command after the data stages: the export format is resolved first, then the renderer
   * is looked up, draws the chart on `df`, and saves it.
   */
  function Output(reg: Factory.Registry, args: ChartArgs, df: Table): (r: Run<Saved>)
    reads reg
    requires reg.Valid()
    ensures ExportFormatOf(args.output).Err? ==> r == Run(Err(ExportFormatOf(args.output).error), [])
    ensures ExportFormatOf(args.output).Ok? && args.renderer !in reg.names ==>
              r == Run(Err(UnknownRenderer(args.renderer, reg.names)), [GetRendererStep(args.renderer)])
    ensures Follows(r, OutputPlan(args))
    ensures r.result.Ok? ==> && r.result.value.path == args.output
                             && ExportFormatOf(args.output) == Ok(r.result.value.format)
                             && DrawnTable(r.result.value.drawing) == df
  {
    match ExportFormatOf(args.output)
    case Err(e) => Run(Err(e), [])
    case Ok(format) => Render(reg, args, df, format)
  }

  /** The renderer named by `--renderer` draws the chart of `df` and saves it in `format`. */
  function Render(reg: Factory.Registry, args: ChartArgs, df: Table, format: ExportFormat): (r: Run<Saved>)
    reads reg
    requires reg.Valid()
    ensures args.renderer !in reg.names ==>
              r == Run(Err(UnknownRenderer(args.renderer, reg.names)), [GetRendererStep(args.renderer)])
    ensures Follows(r, OutputPlan(args))
    ensures r.result.Ok? ==> && r.result.value.path == args.output && r.result.value.format == format
                             && DrawnTable(r.result.value.drawing) == df
  {
    var asked := [GetRendererStep(args.renderer)];
    match reg.GetRenderer(args.renderer)
    case Err(e) => Run(Err(e), asked)
    case Ok(renderer) =>
      var request := ChartRequest(df, args.chartType, args.x, args.y, args.title, args.color, FacetList(args.facets));
      var drawn := asked + [Draw];
      match DrawChart(renderer, request)
      case Err(e) => Run(Err(e), drawn)
      case Ok(d) => Run(Ok(Saved(d, args.output, format)), drawn + [Save(args.output)])
  }

  // ---------------------------------------------------------------- facet_columns as written

  /** The keyword `chart` passes to `create_chart` on every call, with or without `--facets`. */
  const FacetKeyword: string := "facet_columns"

  /**
   * `create_chart` as written: the Plotly builders forward `facet_columns` through `**kwargs`
   * to the Plotly Express function, which declares its keyword parameters and accepts no
   * other, so the call raises `TypeError` once the builder reaches it.
   */
  function DrawChartAsWritten(renderer: Factory.Renderer, request: ChartRequest): (r: Result<Drawing>)
    ensures renderer.cls.CustomClass? ==> r == DrawChart(renderer, request)
    ensures renderer.cls.PlotlyRendererClass? ==> r.Err?
    ensures renderer.cls.PlotlyRendererClass? && DrawChart(renderer, request).Ok? ==>
              r == Err(UnexpectedKeyword(FacetKeyword))
  {
    match renderer.cls
    case PlotlyRendererClass =>
      (match PlotlyRenderer.CreateChart(request.df, PlotlyRenderer.Known(request.chartType), request.x,
                                        PlotlyRenderer.YColumns(request.y), request.title, request.color,
                                        request.facetColumns)
       case Err(e) => Err(e)
       case Ok(_) => Err(UnexpectedKeyword(FacetKeyword)))
    case CustomClass(_) => Ok(CustomFigure(renderer.cls, request))
  }

  /** `Render` drawing with `DrawChartAsWritten`. */
  function RenderAsWritten(reg: Factory.Registry, args: ChartArgs, df: Table, format: ExportFormat): Run<Saved>
    reads reg
    requires reg.Valid()
  {
    var asked := [GetRendererStep(args.renderer)];
    match reg.GetRenderer(args.renderer)
    case Err(e) => Run(Err(e), asked)
    case Ok(renderer) =>
      var request := ChartRequest(df, args.chartType, args.x, args.y, args.title, args.color, FacetList(args.facets));
      var drawn := asked + [Draw];
      match DrawChartAsWritten(renderer, request)
      case Err(e) => Run(Err(e), drawn)
      case Ok(d) => Run(Ok(Saved(d, args.output, format)), drawn + [Save(args.output)])
  }

  /** The whole `chart` command as written. */
  function ChartRunAsWritten(reg: Factory.Registry, args: ChartArgs, ops: Ops): Run<Saved>
    reads reg
    requires reg.Valid() && LoadedWellFormed(args, ops)
  {
    var prepared := Prepare(args, ops);
    if prepared.result.Err? then Run(Err(prepared.result.error), prepared.log)
    else
      match ExportFormatOf(args.output)
      case Err(e) => Run(Err(e), prepared.log)
      case Ok(format) =>
        var out := RenderAsWritten(reg, args, prepared.result.value, format);
        Run(out.result, prepared.log + out.log)
  }

  /** As written, `chart` never exports a chart through the Plotly renderer. */
  lemma PlotlyNeverExportsAsWritten(reg: Factory.Registry, args: ChartArgs, ops: Ops)
    requires reg.Valid() && LoadedWellFormed(args, ops)
    requires args.renderer in reg.names && reg.classes[args.renderer] == Factory.PlotlyRendererClass
    ensures ChartRunAsWritten(reg, args, ops).result.Err?
  {
    var prepared := Prepare(args, ops);
    if prepared.result.Ok? && ExportFormatOf(args.output).Ok? {
      var renderer := reg.GetRenderer(args.renderer);
      assert renderer.Ok? && renderer.value.cls == Factory.PlotlyRendererClass;
    }
  }

  /**
   * Where the data stages succeed and the output suffix is known, the Plotly renderer exports
   * a bar chart, while the command as written fails at the same point.
   */
  lemma PlotlyBarExports(reg: Factory.Registry, args: ChartArgs, ops: Ops)
    requires reg.Valid() && LoadedWellFormed(args, ops)
    requires args.renderer in reg.names && reg.classes[args.renderer] == Factory.PlotlyRendererClass
    requires args.chartType == Bar
    requires Prepare(args, ops).result.Ok? && ExportFormatOf(args.output).Ok?
    ensures ChartRun(reg, args, ops).result.Ok?
    ensures ChartRun(reg, args, ops).result.value.drawing.PlotlyFigure?
    ensures ChartRunAsWritten(reg, args, ops).result == Err(UnexpectedKeyword(FacetKeyword))
  {
    var renderer := reg.GetRenderer(args.renderer);
    assert renderer.Ok? && renderer.value.cls == Factory.PlotlyRendererClass;
  }

  /** The output stages after successful data stages; a failed data stage ends the command. */
  function Finish(reg: Factory.Registry, args: ChartArgs, prepared: Run<Table>): Run<Saved>
    reads reg
    requires reg.Valid()
  {
    if prepared.result.Err? then Run(Err(prepared.result.error), prepared.log)
    else
      var out := Output(reg, args, prepared.result.value);
      Run(out.result, prepared.log + out.log)
  }

  /** The whole `chart` command. */
  function ChartRun(reg: Factory.Registry, args: ChartArgs, ops: Ops): Run<Saved>
    reads reg
    requires reg.Valid() && LoadedWellFormed(args, ops)
  {
    Finish(reg, args, Prepare(args, ops))
  }

  /** `unpivot_data`, when asked for, replacing the table. */
  method ReshapeStep(args: ChartArgs, t: Table) returns (r: Result<Table>, log: seq<Step>)
    requires WellFormed(t)
    ensures Run(r, log) == ReshapeStage(args, t)
  {
    r, log := Ok(t), [];
    if UnpivotRequested(args) {
      r := UnpivotData(t, IdColumns(args.idCols), args.valueStart, args.valueEnd, args.varName, args.valueName);
      log := [Reshape];
    }
  }

  /** The lookup check, then the lookup file's load and the join, replacing the table. */
  method LookupStep(args: ChartArgs, ops: Ops, t: Table) returns (r: Result<Table>, log: seq<Step>)
    ensures Run(r, log) == LookupStage(args, ops, t)
  {
    if args.lookup.None? {
      return Ok(t), [];
    }
    if !LookupComplete(args) {
      return Err(MissingLookupOptions), [];
    }
    var codes := LoadData(PathSource(args.lookup.value), ops.read);
    if codes.Err? {
      return codes, [LoadLookup(args.lookup.value)];
    }
    r := ops.applyLookup(t, codes.value, args.lookupColumn.value, args.lookupCodeCol.value,
                         args.lookupLabelCol.value);
    log := [LoadLookup(args.lookup.value), Lookup];
  }

  /** Load, unpivot and lookup, each reassigning the table. */
  method LoadStages(args: ChartArgs, ops: Ops) returns (r: Result<Table>, log: seq<Step>)
    requires LoadedWellFormed(args, ops)
    ensures Run(r, log) == Early(args, ops)
  {
    log := [Load(args.file)];
    var loaded := LoadData(PathSource(args.file), ops.read);
    if loaded.Err? {
      return loaded, log;
    }
    var reshaped, reshapeLog := ReshapeStep(args, loaded.value);
    log := log + reshapeLog;
    if reshaped.Err? {
      return reshaped, log;
    }
    var looked, lookupLog := LookupStep(args, ops, reshaped.value);
    log := log + lookupLog;
    return looked, log;
  }

  /** Filters, exclusions and the column drop, each reassigning the table. */
  method SelectStages(args: ChartArgs, ops: Ops, t: Table) returns (r: Result<Table>, log: seq<Step>)
    ensures Run(r, log) == Late(args, ops, t)
  {
    var df := t;
    log := [];
    if args.filters.Some? {
      var kept, steps := RunRowExprs(ops, Keep, df, args.filters.value);
      log := steps;
      if kept.Err? {
        return kept, log;
      }
      df := kept.value;
    }
    if args.excludes.Some? {
      var removed, steps := RunRowExprs(ops, Remove, df, args.excludes.value);
      log := log + steps;
      if removed.Err? {
        return removed, log;
      }
      df := removed.value;
    }
    if args.dropCols.Some? {
      var dropped := ops.drop(df, CommaList(args.dropCols.value));
      log := log + [DropStep];
      return dropped, log;
    }
    return Ok(df), log;
  }

  /** Export format, renderer, drawing and export, in that order. */
  method OutputStages(reg: Factory.Registry, args: ChartArgs, df: Table) returns (r: Result<Saved>, log: seq<Step>)
    requires reg.Valid()
    ensures Run(r, log) == Output(reg, args, df)
  {
    var facetColumns := FacetColumns(args.facets);
    var format := ExportFormatOf(args.output);
    if format.Err? {
      return Err(format.error), [];
    }
    log := [GetRendererStep(args.renderer)];
    var renderer := reg.GetRenderer(args.renderer);
    if renderer.Err? {
      return Err(renderer.error), log;
    }
    var request := ChartRequest(df, args.chartType, args.x, args.y, args.title, args.color, facetColumns);
    var drawing := DrawChart(renderer.value, request);
    log := log + [Draw];
    if drawing.Err? {
      return Err(drawing.error), log;
    }
    log := log + [Save(args.output)];
    return Ok(Saved(drawing.value, args.output, format.value)), log;
  }

  /** `chart`: each stage reassigns the table, in the order the command lists them. */
  method Chart(reg: Factory.Registry, args: ChartArgs, ops: Ops) returns (r: Result<Saved>, log: seq<Step>)
    requires reg.Valid() && LoadedWellFormed(args, ops)
    ensures Run(r, log) == ChartRun(reg, args, ops)
  {
    var early, earlyLog := LoadStages(args, ops);
    log := earlyLog;
    if early.Err? {
      return Err(early.error), log;
    }
    var selected, lateLog := SelectStages(args, ops, early.value);
    log := log + lateLog;
    assert Prepare(args, ops) == Run(selected, log);
    if selected.Err? {
      return Err(selected.error), log;
    }
    var saved, outLog := OutputStages(reg, args, selected.value);
    log := log + outLog;
    return saved, log;
  }

  // ---------------------------------------------------------------- the order of the steps

  function ReshapePlan(args: ChartArgs): seq<Step> {
    if UnpivotRequested(args) then [Reshape] else []
  }

  function LookupPlan(args: ChartArgs): seq<Step> {
    if args.lookup.Some? then [LoadLookup(args.lookup.value), Lookup] else []
  }

  function DropPlan(args: ChartArgs): seq<Step> {
    if args.dropCols.Some? then [DropStep] else []
  }

  function OutputPlan(args: ChartArgs): seq<Step> {
    [GetRendererStep(args.renderer)] + [Draw] + [Save(args.output)]
  }

  function EarlyPlan(args: ChartArgs): seq<Step> {
    [Load(args.file)] + ReshapePlan(args) + LookupPlan(args)
  }

  function LatePlan(args: ChartArgs): seq<Step> {
    RowPlan(Keep, args.filters.GetOr([])) + RowPlan(Remove, args.excludes.GetOr([])) + DropPlan(args)
  }

  /**
   * Every step the options ask for, in the command's order: load, unpivot, lookup, each filter,
   * each exclusion, column drop, then renderer, drawing and export.
   */
  function Plan(args: ChartArgs): seq<Step> {
    EarlyPlan(args) + LatePlan(args) + OutputPlan(args)
  }

  /** Load, unpivot and lookup happen in that order, and each one only after the previous succeeded. */
  lemma EarlyFollowsPlan(args: ChartArgs, ops: Ops)
    requires LoadedWellFormed(args, ops)
    ensures Follows(Early(args, ops), EarlyPlan(args))
  {
    var loaded := LoadData(PathSource(args.file), ops.read);
    var start := Run(loaded, [Load(args.file)]);
    if loaded.Err? {
      FollowsFailed(start, [Load(args.file)], ReshapePlan(args));
      FollowsFailed(start, [Load(args.file)] + ReshapePlan(args), LookupPlan(args));
    } else {
      var reshaped := Then(start, ReshapeStage(args, loaded.value));
      FollowsThen([Load(args.file)], ReshapeStage(args, loaded.value), ReshapePlan(args));
      if reshaped.result.Err? {
        FollowsFailed(reshaped, [Load(args.file)] + ReshapePlan(args), LookupPlan(args));
      } else {
        FollowsThen(reshaped.log, LookupStage(args, ops, reshaped.result.value), LookupPlan(args));
      }
    }
  }

  /** Filters, then exclusions, each in the order given, then the column drop. */
  lemma LateFollowsPlan(args: ChartArgs, ops: Ops, t: Table)
    ensures Follows(Late(args, ops, t), LatePlan(args))
  {
    var filters := args.filters.GetOr([]);
    var excludes := args.excludes.GetOr([]);
    var kept := ApplyRowExprs(ops, Keep, t, filters);
    RowExprsPlan(ops, Keep, t, filters);
    if kept.result.Err? {
      FollowsFailed(kept, RowPlan(Keep, filters), RowPlan(Remove, excludes));
      FollowsFailed(kept, RowPlan(Keep, filters) + RowPlan(Remove, excludes), DropPlan(args));
    } else {
      var rest := ApplyRowExprs(ops, Remove, kept.result.value, excludes);
      RowExprsPlan(ops, Remove, kept.result.value, excludes);
      var removed := Then(kept, rest);
      FollowsThen(kept.log, rest, RowPlan(Remove, excludes));
      if removed.result.Err? {
        FollowsFailed(removed, RowPlan(Keep, filters) + RowPlan(Remove, excludes), DropPlan(args));
      } else {
        FollowsThen(removed.log, DropStage(args, ops, removed.result.value), DropPlan(args));
      }
    }
  }

  /** The data stages keep to their plan. */
  lemma PrepareFollowsPlan(args: ChartArgs, ops: Ops)
    requires LoadedWellFormed(args, ops)
    ensures Follows(Prepare(args, ops), EarlyPlan(args) + LatePlan(args))
  {
    var early := Early(args, ops);
    EarlyFollowsPlan(args, ops);
    if early.result.Err? {
      FollowsFailed(early, EarlyPlan(args), LatePlan(args));
    } else {
      LateFollowsPlan(args, ops, early.result.value);
      FollowsThen(early.log, Late(args, ops, early.result.value), LatePlan(args));
    }
  }

  /**
   * The steps of `chart` are always the first steps of its plan, and all of them when it
   * succeeds: no stage is skipped, repeated or reordered, and a failure ends the command.
   */
  lemma ChartFollowsPlan(reg: Factory.Registry, args: ChartArgs, ops: Ops)
    requires reg.Valid() && LoadedWellFormed(args, ops)
    ensures Follows(ChartRun(reg, args, ops), Plan(args))
  {
    var prepared := Prepare(args, ops);
    PrepareFollowsPlan(args, ops);
    if prepared.result.Err? {
      FollowsFailed(prepared, EarlyPlan(args) + LatePlan(args), OutputPlan(args));
    } else {
      FollowsThen(prepared.log, Output(reg, args, prepared.result.value), OutputPlan(args));
    }
  }

  /** No renderer, drawing or export step belongs to the data stages. */
  predicate Rendering(s: Step) {
    s.GetRendererStep? || s.Draw? || s.Save?
  }

  lemma RowPlanMembers(op: RowOp, exprs: seq<string>, s: Step)
    requires s in RowPlan(op, exprs)
    ensures s.RowStep? && s.op == op
  {
    var i :| 0 <= i < |RowPlan(op, exprs)| && RowPlan(op, exprs)[i] == s;
  }

  /** The data plan holds no rendering step and, apart from its second step, no reshape. */
  lemma DataPlanSteps(args: ChartArgs, s: Step)
    requires s in EarlyPlan(args) + LatePlan(args)
    ensures !Rendering(s)
    ensures s == Reshape ==> UnpivotRequested(args)
  {
    var filters := args.filters.GetOr([]);
    var excludes := args.excludes.GetOr([]);
    if s in RowPlan(Keep, filters) {
      RowPlanMembers(Keep, filters, s);
    } else if s in RowPlan(Remove, excludes) {
      RowPlanMembers(Remove, excludes, s);
    }
  }

  /**
   * The export format is resolved before the renderer is asked for: a bad output suffix ends
   * the command with no renderer, drawing or export step, and with that error once the data
   * stages succeeded.
   */
  lemma BadOutputRendersNothing(reg: Factory.Registry, args: ChartArgs, ops: Ops)
    requires reg.Valid() && LoadedWellFormed(args, ops)
    requires ExportFormatOf(args.output).Err?
    ensures var run := ChartRun(reg, args, ops);
      && run.result.Err?
      && run.log == Prepare(args, ops).log
      && (forall k :: 0 <= k < |run.log| ==> !Rendering(run.log[k]))
      && (Prepare(args, ops).result.Ok? ==> run.result.error == UnsupportedOutputFormat(OutputSuffix(args.output)))
  {
    var prepared := Prepare(args, ops);
    var log := prepared.log;
    if prepared.result.Ok? {
      var failed := Run(Err(ExportFormatOf(args.output).error), []);
      assert Output(reg, args, prepared.result.value) == failed;
      assert ChartRun(reg, args, ops) == Run(failed.result, log + []);
      assert log + [] == log;
    } else {
      assert ChartRun(reg, args, ops) == Run(Err(prepared.result.error), log);
    }
    PrepareFollowsPlan(args, ops);
    forall k | 0 <= k < |log| ensures !Rendering(log[k]) {
      assert log[k] == (EarlyPlan(args) + LatePlan(args))[k];
      DataPlanSteps(args, log[k]);
    }
  }

  /**
   * `--lookup` without all three lookup columns is refused before the lookup file is read: the
   * lookup file is never loaded, and the command fails with that error once the input is
   * loaded and reshaped.
   */
  lemma IncompleteLookupRefused(reg: Factory.Registry, args: ChartArgs, ops: Ops)
    requires reg.Valid() && LoadedWellFormed(args, ops)
    requires args.lookup.Some? && !LookupComplete(args)
    ensures var run := ChartRun(reg, args, ops);
      && run.result.Err?
      && LoadLookup(args.lookup.value) !in run.log && Lookup !in run.log
      && (var loaded := LoadData(PathSource(args.file), ops.read);
          loaded.Ok? && ReshapeStage(args, loaded.value).result.Ok? ==> run.result.error == MissingLookupOptions)
  {
    EarlyRefusesLookup(args, ops);
    var early := Early(args, ops);
    assert Prepare(args, ops) == early;
    assert ChartRun(reg, args, ops) == Run(Err(early.result.error), early.log);
  }

  /** Loading then reshaping logs one load and reshape steps only. */
  lemma ReshapedLog(args: ChartArgs, file: string, t: Table)
    requires WellFormed(t)
    ensures var log := [Load(file)] + ReshapeStage(args, t).log;
      forall k :: 0 <= k < |log| ==> log[k].Load? || log[k].Reshape?
  {
    var rs := ReshapeStage(args, t);
    assert rs.log == [] || rs.log == [Reshape];
  }

  /** With an incomplete lookup, the first stages fail having only loaded and reshaped. */
  lemma EarlyRefusesLookup(args: ChartArgs, ops: Ops)
    requires LoadedWellFormed(args, ops)
    requires args.lookup.Some? && !LookupComplete(args)
    ensures var early := Early(args, ops);
      && early.result.Err?
      && (forall k :: 0 <= k < |early.log| ==> early.log[k].Load? || early.log[k].Reshape?)
      && (var loaded := LoadData(PathSource(args.file), ops.read);
          loaded.Ok? && ReshapeStage(args, loaded.value).result.Ok? ==> early.result.error == MissingLookupOptions)
  {
    var loaded := LoadData(PathSource(args.file), ops.read);
    var start := Run(loaded, [Load(args.file)]);
    if loaded.Ok? {
      var rs := ReshapeStage(args, loaded.value);
      ReshapedLog(args, args.file, loaded.value);
      if rs.result.Ok? {
        assert LookupStage(args, ops, rs.result.value) == Run(Err(MissingLookupOptions), []);
        assert Early(args, ops) == Run(Err(MissingLookupOptions), [Load(args.file)] + rs.log + []);
        assert [Load(args.file)] + rs.log + [] == [Load(args.file)] + rs.log;
      } else {
        assert Early(args, ops) == Run(rs.result, [Load(args.file)] + rs.log);
      }
    } else {
      assert Early(args, ops) == start;
    }
  }

  /** The row and column selection only adds steps after those of loading, reshaping and lookup. */
  lemma PrepareExtendsEarly(args: ChartArgs, ops: Ops)
    requires LoadedWellFormed(args, ops)
    ensures IsPrefix(Early(args, ops).log, Prepare(args, ops).log)
  {
    var early := Early(args, ops);
    if early.result.Ok? {
      PrefixAppend(early.log, early.log, Late(args, ops, early.result.value).log);
    }
  }

  /** The output stages only add steps after those of the data stages. */
  lemma ChartExtendsPrepare(reg: Factory.Registry, args: ChartArgs, ops: Ops)
    requires reg.Valid() && LoadedWellFormed(args, ops)
    ensures IsPrefix(Prepare(args, ops).log, ChartRun(reg, args, ops).log)
  {
    var prepared := Prepare(args, ops);
    if prepared.result.Ok? {
      PrefixAppend(prepared.log, prepared.log, Output(reg, args, prepared.result.value).log);
    }
  }

  /** A step of a run that keeps to a plan is a step of the plan. */
  lemma FollowedStep<T>(run: Run<T>, plan: seq<Step>, s: Step)
    requires Follows(run, plan) && s in run.log
    ensures s in plan
  {
    var k :| 0 <= k < |run.log| && run.log[k] == s;
    assert plan[k] == s;
  }

  /** The plan reshapes only when asked to. */
  lemma ReshapePlanned(args: ChartArgs)
    requires Reshape in Plan(args)
    ensures UnpivotRequested(args)
  {
    var data := EarlyPlan(args) + LatePlan(args);
    assert Plan(args) == data + OutputPlan(args);
    if Reshape in data {
      DataPlanSteps(args, Reshape);
    }
  }

  /** A loaded input that is to be reshaped is reshaped right after loading. */
  lemma ReshapeLogged(reg: Factory.Registry, args: ChartArgs, ops: Ops)
    requires reg.Valid() && LoadedWellFormed(args, ops)
    requires LoadData(PathSource(args.file), ops.read).Ok? && UnpivotRequested(args)
    ensures IsPrefix([Load(args.file), Reshape], ChartRun(reg, args, ops).log)
  {
    var loaded := LoadData(PathSource(args.file), ops.read);
    var reshaped := Then(Run(loaded, [Load(args.file)]), ReshapeStage(args, loaded.value));
    assert reshaped.log == [Load(args.file), Reshape];
    if reshaped.result.Ok? {
      PrefixAppend(reshaped.log, reshaped.log, LookupStage(args, ops, reshaped.result.value).log);
    }
    PrepareExtendsEarly(args, ops);
    ChartExtendsPrepare(reg, args, ops);
    PrefixTransitive(reshaped.log, Early(args, ops).log, Prepare(args, ops).log);
    PrefixTransitive(reshaped.log, Prepare(args, ops).log, ChartRun(reg, args, ops).log);
  }

  /** Once the input is loaded, the table is reshaped exactly when `--id-cols` or `--value-start` is given. */
  lemma ReshapeExactlyWhenRequested(reg: Factory.Registry, args: ChartArgs, ops: Ops)
    requires reg.Valid() && LoadedWellFormed(args, ops)
    requires LoadData(PathSource(args.file), ops.read).Ok?
    ensures Reshape in ChartRun(reg, args, ops).log <==> UnpivotRequested(args)
  {
    var run := ChartRun(reg, args, ops);
    if UnpivotRequested(args) {
      ReshapeLogged(reg, args, ops);
      PrefixAt([Load(args.file), Reshape], run.log, 1);
    } else if Reshape in run.log {
      ChartFollowsPlan(reg, args, ops);
      FollowedStep(run, Plan(args), Reshape);
      ReshapePlanned(args);
    }
  }

  /** A chart that is exported was drawn from the table the data stages produced. */
  lemma ChartDrawsPrepared(reg: Factory.Registry, args: ChartArgs, ops: Ops)
    requires reg.Valid() && LoadedWellFormed(args, ops)
    requires ChartRun(reg, args, ops).result.Ok?
    ensures var saved := ChartRun(reg, args, ops).result.value;
      && Prepare(args, ops).result.Ok?
      && DrawnTable(saved.drawing) == Prepare(args, ops).result.value
      && saved.path == args.output && ExportFormatOf(args.output) == Ok(saved.format)
  {
  }

  /** Without reshaping, lookup, filter, exclusion or drop options, the loaded table is drawn as read. */
  lemma NoOptionsKeepsTable(args: ChartArgs, ops: Ops)
    requires LoadedWellFormed(args, ops)
    requires !UnpivotRequested(args) && args.lookup.None? && args.dropCols.None?
    requires args.filters.GetOr([]) == [] && args.excludes.GetOr([]) == []
    ensures Prepare(args, ops) == Run(LoadData(PathSource(args.file), ops.read), [Load(args.file)])
  {
    var loaded := LoadData(PathSource(args.file), ops.read);
    if loaded.Ok? {
      assert Early(args, ops) == Run(loaded, [Load(args.file)]);
      assert Late(args, ops, loaded.value) == Run(loaded, []);
    }
  }
}
