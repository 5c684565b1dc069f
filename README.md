# viz-tool core, modelled in Dafny

This project models the logic of the viz-tool data-visualisation tool that can be stated as
contracts:

- **The engine** (`src/engine.py`):
  - `load_data` picks a reader from the case-insensitive ending of the file name.
  - `unpivot_data` validates its two selection modes and splits the columns into identifier
    and value columns, then reshapes the table wide-to-long.
  - `compare_datasets` picks the columns that get a `<col>_diff` column and lays out the
    output schema.
- **The `chart` command** (`src/cli.py`):
  - It parses `--filter`/`--exclude` expressions and the comma lists of `--id-cols`,
    `--drop-columns` and `--facets`.
  - It refuses an incomplete `--lookup`.
  - It resolves the export format from the output suffix.
  - It runs its stages in a fixed order, each reassigning the table.
- **The Plotly renderer** (`src/graphs/plotly_renderer.py`):
  - `create_chart` dispatches by chart type, and each builder has its own argument rules.
  - The network chart builds an undirected networkx graph from an edge list, falls back to
    the spring layout for an unknown layout name, and draws two traces.
- **The renderer registry** (`src/graphs/factory.py`): a mutable dictionary from name to
  renderer class.

## Layout of the project

| file | module | what it holds |
|---|---|---|
| `base.dfy` | `Base` | `Option`, `Result` and the error values the program raises |
| `lists.dfy` | `Lists` | distinctness, order and prefix facts about sequences |
| `text.dfy` | `Text` | Python's `str.lower`, `endswith`, `strip`, `split` and `split(sep, 1)` |
| `tables.dfy` | `Tables` | a table: typed, uniquely named columns and rows of cells |
| `types.dfy` | `GraphTypes` | `ChartType` and `ExportFormat` (`src/graphs/types.py`) |
| `engine.dfy` | `Engine` | `src/engine.py` |
| `nx_graph.dfy` | `NxGraph` | the part of networkx's undirected `Graph` the renderer relies on |
| `plotly_renderer.dfy` | `PlotlyRenderer` | `src/graphs/plotly_renderer.py` |
| `factory.dfy` | `Factory` | `src/graphs/factory.py`, a `Registry` class |
| `cli.dfy` | `Cli` | `src/cli.py`: option parsing and the `chart` command |

Each code shape keeps its form in the model:

- **Pure dispatch and validation** become functions.
- **The registry** becomes a class. Its name-to-class map and its key order are fields that
  `Register` updates in place.
- **Loops become methods with loop invariants**, each proved equal to a specification
  function. The loops are:
  - the row loop of `_build_networkx_graph` (`BuildGraph`);
  - the edge loop of `_render_network_figure` (`EdgeCoordinates`, used by `RenderNetwork`);
  - the filter and exclude loops (`RunRowExprs`);
  - the facet loop (`FacetColumns`).
- **The `chart` command** is the method `Chart`. It reassigns the table stage by stage and
  records a log of `Step`s: loads, reshape, lookup, each filter or exclusion, the drop, the
  renderer lookup, the drawing and the export. `ChartFollowsPlan` and the lemmas after it
  state the order of these steps.

Some operations belong to libraries whose code is not part of this model. They are
parameters:

- the file readers of polars;
- the polars outer join;
- `apply_lookup`, `filter_data`, `exclude_values` and `drop_columns`, which are imported by
  `src/cli.py` but not defined in `src/engine.py`;
- the networkx layout functions;
- Python's `str` of a node value.

`--facets` is documented as a dropdown selector (`src/cli.py:120`, `src/cli.py:156-165`), but
the renderer has no faceted path. `chart` passes the facet list as the keyword argument
`facet_columns` (`src/cli.py:239`), and the Plotly builders forward it to Plotly Express
untouched; see "## Findings".

## Model

| member | source | states |
|---|---|---|
| GraphTypes.ChartTypeOf | src/graphs/types.py:7-14 | `ChartType(value)` yields the member with that value; no member means no result |
| GraphTypes.ChartTypeRoundTrip | src/graphs/types.py:7-14 | every chart type is recovered from its value |
| Factory.Registry.constructor | src/graphs/factory.py:11-13 | the registry starts with exactly one entry, `"plotly"` bound to the Plotly renderer |
| Factory.Registry.GetRenderer | src/graphs/factory.py:16-32 | it succeeds exactly for registered names and returns an instance of the class registered under the name; any other name fails with an error listing the registered names |
| Factory.Registry.ListRenderers | src/graphs/factory.py:48-55 | the registered names in registration order: every registered name appears once, and nothing else does |
| Factory.Registry.Register | src/graphs/factory.py:35-45 | binds the name to the class; every other entry keeps its class; a new name goes last and a known one keeps its position; the name is then found and listed, and the registry stays consistent |
| Engine.FormatOf | src/engine.py:30-38 | a reader is chosen only when the lower-cased name ends with its extension; otherwise "Unsupported format" naming the file, when no extension matches |
| Engine.ExtensionsExclusive | src/engine.py:31-36 | no name ends with two of `.csv`, `.json`, `.parquet`, so the dispatch is unambiguous |
| Engine.FormatOfAnyCase | src/engine.py:30-36 | any stem followed by any capitalisation of an extension selects that extension's reader |
| Engine.UnnamedStreamUnsupported | src/engine.py:24-38 | a stream without a `name` is read as the empty name and refused |
| Engine.LoadData | src/engine.py:9-38 | an unsupported name fails before any reader is called; otherwise the result is the chosen reader's |
| Engine.Without | src/engine.py:126-128 | the comprehension keeps only columns of the list that are not dropped, and never more of them |
| Engine.WithoutMembers | src/engine.py:126-128 | a column survives exactly when it is in the list and not dropped |
| Engine.WithoutOrdered | src/engine.py:126-128 | the survivors keep their original order |
| Engine.WithoutSlice | src/engine.py:124-126 | removing the slice `[s, e)` from unique columns leaves the columns before `s` followed by those from `e` |
| Engine.SelectColumns | src/engine.py:108-128 | the error cases: neither mode given (an empty id list counts as absent); an index out of range (`start < 0` or `end > n`, `end` defaulting to `n`); `start >= end`. Each error occurs exactly under its condition, and index mode selects the slice `[start, end)` |
| Engine.IndexModeSelection | src/engine.py:115-126 | index mode: the values are the slice, `end - start` of them; without identifiers the identifiers are the other columns in order, and every column is in exactly one list; with identifiers the caller's list is passed through unchanged |
| Engine.IdModeSelection | src/engine.py:127-128 | id mode: the identifiers are passed through; the values are the other columns in table order; together they cover every column, without overlap |
| Engine.Unpivot | src/engine.py:129-134 | the reshape succeeds exactly when every named column exists and the output names are unique; the output columns are the identifiers, then the variable and value columns; there is one row per value column and input row |
| Engine.UnpivotErrors | src/engine.py:129-134 | a failed reshape names a missing input column or a duplicated output column |
| Engine.StackAt | src/engine.py:129-134 | the stacked rows: row `j * n + i` is input row `i`'s identifiers, the name of value column `j` and that column's cell |
| Engine.UnpivotRows | src/engine.py:129-134 | row `j * n + i` of the long table is input row `i`'s identifiers, the name of value column `j` and its cell |
| Engine.UnpivotWellFormed | src/engine.py:129-134 | the long table has unique column names, and every cell fits the type of its column |
| Engine.UnpivotData | src/engine.py:73-134 | every validation error is returned before any reshape; otherwise the result is the reshape of the selected columns |
| Engine.UnpivotIndexModeRowCount | src/engine.py:115-134 | in index mode the long table has `(end - start) * rows` rows |
| Engine.StackedType | src/engine.py:129-134 | the value column's type is the type of every stacked column, or a mixed type |
| Engine.DiffColumnsMembers | src/engine.py:59-63 | a column gets a diff column exactly when it is in A, also in B, not the join key, and Int64 or Float64 in A |
| Engine.DiffColumnsOrdered | src/engine.py:59-63 | the diff columns follow A's column order |
| Engine.DiffNamesDistinct | src/engine.py:68 | distinct columns get distinct `<col>_diff` names |
| Engine.WrapInt64 | src/engine.py:68 | Int64 wrap-around: the result is a signed 64-bit value congruent to the input modulo 2^64, and the input itself when it fits |
| Engine.Subtract | src/engine.py:68 | `col - col_b` on one row: a null on either side gives null; integer minus integer is the Int64 difference, wrapping around modulo 2^64 and exact when it fits; otherwise a float |
| Engine.DiffProblem | src/engine.py:65-70 | no problem is reported exactly when every diff column and its `_b` partner exist, are numeric, and the `_diff` name is free |
| Engine.WithDiffs | src/engine.py:65-70 | the joined columns come first, then the diff columns (the helper `DiffSchema`); each row is the joined row followed by its differences (the helper `DiffCells`); the row count is unchanged |
| Engine.CompareDatasets | src/engine.py:41-70 | a failed join fails the comparison; otherwise it fails exactly when a diff expression cannot be evaluated; a success has the joined columns followed by one `<col>_diff` per diff column, and the joined row count |
| Engine.CompareRows | src/engine.py:64-70 | each output row starts with the joined row; its `k`-th diff cell is the joined `col` minus the joined `col_b` |
| Engine.CompareWellFormed | src/engine.py:64-70 | the comparison table has unique names, and every cell fits its column |
| NxGraph.FindEdge | src/graphs/plotly_renderer.py:163 | finds the edge that joins a pair in either orientation, if there is one |
| NxGraph.AddEdge | src/graphs/plotly_renderer.py:163 | `add_edge` fails exactly when an endpoint is `None` |
| NxGraph.AddEdgeValid | src/graphs/plotly_renderer.py:163 | `add_edge` keeps the graph valid: unique nodes, edges between nodes, one edge per unordered pair |
| NxGraph.AddEdgeNodes | src/graphs/plotly_renderer.py:163 | the new nodes are the old ones plus the two endpoints |
| NxGraph.AddEdgeEdges | src/graphs/plotly_renderer.py:163 | at most one edge is added; old edges keep their place; the requested pair is joined |
| NxGraph.AddEdgeData | src/graphs/plotly_renderer.py:162-163 | a weight given for an existing pair replaces that edge's weight; a new pair's edge gets exactly the given weight; every other edge keeps its weight |
| NxGraph.FromEdgesValid | src/graphs/plotly_renderer.py:158-164 | the built graph is valid |
| NxGraph.FromEdgesFails | src/graphs/plotly_renderer.py:158-164 | building fails exactly when some request has a `None` endpoint |
| NxGraph.FromEdgesNodes | src/graphs/plotly_renderer.py:158-164 | the nodes are exactly the requests' endpoints |
| NxGraph.FromEdgesCount | src/graphs/plotly_renderer.py:158-164 | there are at most as many edges as requests |
| NxGraph.FromEdgesJoins | src/graphs/plotly_renderer.py:158-164 | every request's pair is joined by an edge |
| NxGraph.FromEdgesWeights | src/graphs/plotly_renderer.py:160-163 | each edge has the weight of the last request for its pair that gave one, or none |
| NxGraph.NeighborsCount | src/graphs/plotly_renderer.py:205 | a node has one neighbour per edge touching it |
| NxGraph.Degree | src/graphs/plotly_renderer.py:205 | the degree is one per edge touching the node plus one for a self-loop, so a self-loop counts twice; it is at least the neighbour count |
| NxGraph.EdgeViewSize | src/graphs/plotly_renderer.py:191 | `graph.edges()` reports as many pairs as there are edges |
| NxGraph.ViewAtHas | src/graphs/plotly_renderer.py:191 | a node reports every edge whose earlier end it is |
| NxGraph.ViewFromHas | src/graphs/plotly_renderer.py:191 | the nodes from `i` on report every edge whose earlier end is among them |
| NxGraph.EdgeViewIsEdges | src/graphs/plotly_renderer.py:191 | on a valid graph, `graph.edges()` reports one pair per edge, every edge of the graph is among the pairs, and each reported pair is joined by an edge |
| PlotlyRenderer.CreateChart | src/graphs/plotly_renderer.py:19-56 | a chart type outside the enumeration is refused; otherwise the call drawn is that type's, on the same data, title and forwarded keyword arguments (scatter and pie read their value column through the helper `SingleY`) |
| PlotlyRenderer.CreateChartFails | src/graphs/plotly_renderer.py:46-118 | every chart type has a builder; only scatter and pie fail, and only for an empty list of y columns |
| PlotlyRenderer.BarLinePassY | src/graphs/plotly_renderer.py:58-80 | bar and line pass `x`, `y` and `color` as given |
| PlotlyRenderer.ScatterPieFirstY | src/graphs/plotly_renderer.py:82-118 | scatter and pie with a non-empty list of y columns draw exactly what the first column alone draws |
| PlotlyRenderer.HistogramIgnoresY | src/graphs/plotly_renderer.py:95-105 | a histogram does not depend on `y` |
| PlotlyRenderer.PieIgnoresColor | src/graphs/plotly_renderer.py:107-118 | a pie does not depend on `color`; its slices are named by `x` and sized by the y column |
| PlotlyRenderer.BuildGraph | src/graphs/plotly_renderer.py:150-164 | the row loop returns the graph of the rows' `add_edge` requests added in order, or the first error (the helpers `NodeKey`, `RowRequest` and `Requests` build the requests) |
| PlotlyRenderer.GraphOfFails | src/graphs/plotly_renderer.py:158-164 | a missing source or target column raises `KeyError` once there is a row; otherwise building fails exactly when some row has a null endpoint |
| PlotlyRenderer.GraphOfNodes | src/graphs/plotly_renderer.py:158-164 | the graph is valid; its nodes are exactly the rows' non-null source and target values; it has at most one edge per row |
| PlotlyRenderer.GraphOfJoins | src/graphs/plotly_renderer.py:163 | each row's source and target are joined, whichever order they came in |
| PlotlyRenderer.GraphOfWeights | src/graphs/plotly_renderer.py:160-163 | an edge has the weight cell of the last row for its pair; no edge has a weight unless the weight column is named and exists |
| PlotlyRenderer.LayoutNamed | src/graphs/plotly_renderer.py:172-180 | a known name selects its layout; any other name selects the spring layout |
| PlotlyRenderer.LayoutRoundTrip | src/graphs/plotly_renderer.py:172-179 | every layout is selected by its own name |
| PlotlyRenderer.EdgeLineAt | src/graphs/plotly_renderer.py:191-195 | triple `k` of an edge coordinate list is the coordinates of the `k`-th reported edge's two ends, then `None` |
| PlotlyRenderer.EdgeCoordinates | src/graphs/plotly_renderer.py:189-202 | the loop over the reported edges collects, per edge, its two ends' coordinates and a break on each axis, in order |
| PlotlyRenderer.RenderNetwork | src/graphs/plotly_renderer.py:182-237 | the loop over `graph.edges()` builds exactly the specified figure |
| PlotlyRenderer.NetworkFigureShape | src/graphs/plotly_renderer.py:196-236 | two traces, edges (lines) first, then nodes (markers and text); the title is "Network Graph" when none or an empty one is given, else the given one |
| PlotlyRenderer.NetworkFigureEdges | src/graphs/plotly_renderer.py:189-202 | the edge lists have three entries per edge; triple `k` holds the two ends of the `k`-th reported edge and a break; every such pair is joined by an edge |
| PlotlyRenderer.NetworkFigureDrawsEveryEdge | src/graphs/plotly_renderer.py:189-202 | every edge of the graph is drawn: some triple of the edge lists holds the positions of its two ends |
| PlotlyRenderer.NetworkFigureNodes | src/graphs/plotly_renderer.py:203-218 | the node x, y, label and colour lists share the node order; the label is the node's text and the colour its degree |
| PlotlyRenderer.CreateNetwork | src/graphs/plotly_renderer.py:120-148 | build, lay out with the named layout (spring for unknown names), draw; it fails exactly when building fails, with that error |
| Text.SplitJoin | src/cli.py:206 | `str.split(",")` pieces hold no comma, and joining them with it gives the text back |
| Text.SplitOnceParts | src/cli.py:205 | `split(":", 1)` splits at the first colon: none before it, and nothing lost |
| Cli.Suffix | src/cli.py:301 | `Path.suffix`: empty, or a dot followed by dot-free text that ends the name and is shorter than it |
| Cli.FormatOfSuffix | src/cli.py:302-313 | only `.html`, `.png`, `.pdf` and `.svg` select a format, each its own |
| Cli.FormatOfSuffixRoundTrip | src/cli.py:302-307 | each format is selected by its own suffix |
| Cli.ExportFormatOf | src/cli.py:299-313 | the lower-cased suffix of the output name selects the format; any other suffix fails with "Unsupported output format" naming it |
| Cli.ExtensionPlain | src/cli.py:301-307 | a format's extension in any letter case holds neither `.` nor `/` |
| Cli.PathNameOfName | src/cli.py:301 | a path without `/` (neither empty nor `.`) is its own name |
| Cli.SuffixOfExtension | src/cli.py:301 | the suffix of `stem.ext` is `.ext` |
| Cli.ExportFormatRoundTrip | src/cli.py:299-313 | `stem.EXT`, with any capitalisation of a format's extension, exports in that format |
| Cli.CommaList | src/cli.py:206 | a comma list always has at least one item (`"".split(",")` is `[""]`) |
| Cli.ParseRowExpr | src/cli.py:201-206 | an expression without `:` is refused; any other is parsed |
| Cli.ParseRowExprParts | src/cli.py:205-206 | the column is the unstripped text before the first colon; the values are the stripped comma list after it |
| Cli.ColonsInValues | src/cli.py:205-206 | later colons stay inside the values |
| Cli.ConcatNext | src/cli.py:225-226 | one more facet item adds its list at the end |
| Cli.ConcatMembers | src/cli.py:225-226 | an element of the concatenation comes from one of the items' lists, and each of their elements is there |
| Cli.FacetCount | src/cli.py:222-226 | each `--facets` item gives at least one column |
| Cli.FacetMembers | src/cli.py:222-226 | the facet columns are exactly the columns of the items' comma lists |
| Cli.FacetColumns | src/cli.py:222-226 | the loop gives none without `--facets`, else the items' comma lists concatenated in order |
| Cli.LookupStage | src/cli.py:183-197 | no `--lookup` leaves the table; an incomplete lookup is refused before anything is read; otherwise the lookup file is loaded, then applied |
| Cli.ApplyRowExpr | src/cli.py:200-217 | an expression without `:` is refused with the invalid filter (or exclude) format error and logs no step; one with `:` logs exactly its own filter (or exclusion) step |
| Cli.RowExprsStopAtError | src/cli.py:200-217 | once an expression fails, the later ones change nothing |
| Cli.RowExprsNext | src/cli.py:200-207 | each expression applies to the previous result |
| Cli.RowExprsAdvance | src/cli.py:200-207 | one turn of the loop: a failure is the outcome of all expressions; a success is the next table |
| Cli.ApplyOne | src/cli.py:200-217 | one loop body, proved equal to `ApplyRowExpr`: the refusal of an expression without `:`, or its filter (or exclusion) |
| Cli.RunRowExprs | src/cli.py:198-217 | the loop over `--filter` (or `--exclude`) yields the in-order application, stopping at the first failure |
| Cli.RowPlanSnoc | src/cli.py:200-217 | the plan of one more expression adds its step at the end |
| Cli.RowExprsPlan | src/cli.py:198-217 | the expressions run in the given order, one step each (the plan built by the helper `RowPlan`); all of them run when all succeed |
| Cli.DrawChart | src/cli.py:231-240 | a registered custom class is assumed to draw the request as given; the Plotly renderer fails exactly for scatter or pie without y columns (`IndexError`); otherwise it draws the requested kind on the prepared table, with the title and the facet list as keyword |
| Cli.ReshapeStage | src/cli.py:169-182 | unpivot runs, as one step, exactly when `--id-cols` or `--value-start` is given, on the `--id-cols` comma list (the helper `IdColumns`); otherwise the table is unchanged |
| Cli.DropStage | src/cli.py:218-221 | without `--drop-columns` the table is unchanged |
| Cli.Output | src/cli.py:227-241 | a bad suffix fails before any renderer step; an unknown renderer fails after asking for it; an exported chart is saved to `--output`, in the suffix's format, and drawn from the given table |
| Cli.Render | src/cli.py:229-241 | renderer lookup, drawing and export in that order; an export carries the output path, the format, and the given table |
| Cli.ReshapeStep | src/cli.py:172-182 | the unpivot step as the stage specifies |
| Cli.LookupStep | src/cli.py:183-197 | the lookup check, load and join as the stage specifies |
| Cli.LoadStages | src/cli.py:167-197 | load, unpivot and lookup, each reassigning the table, stopping at the first failure |
| Cli.SelectStages | src/cli.py:198-221 | filters, exclusions and drop, each reassigning the table, stopping at the first failure |
| Cli.OutputStages | src/cli.py:227-241 | format, renderer, drawing and export as `Output` specifies |
| Cli.Chart | src/cli.py:167-241 | the `chart` command's stages, each reassigning the table, give the specified outcome and step log |
| Cli.EarlyFollowsPlan | src/cli.py:167-197 | load, unpivot (when asked), lookup (when asked), in that order |
| Cli.LateFollowsPlan | src/cli.py:198-221 | each filter in order, then each exclusion in order, then the drop |
| Cli.PrepareFollowsPlan | src/cli.py:167-221 | the data stages keep to their plan |
| Cli.ChartFollowsPlan | src/cli.py:167-241 | the command's steps are the first steps of its plan, and all of them when it succeeds: no stage is skipped, repeated or reordered |
| Cli.RowPlanMembers | src/cli.py:200-217 | the steps of a row plan are row steps of that kind |
| Cli.DataPlanSteps | src/cli.py:167-221 | the data stages hold no rendering step, and reshape only when asked |
| Cli.BadOutputRendersNothing | src/cli.py:227-241 | a bad output suffix ends the command without any renderer, drawing or export step, with that error once the data stages succeeded |
| Cli.IncompleteLookupRefused | src/cli.py:183-190 | an incomplete `--lookup` fails the command without loading or applying the lookup file |
| Cli.EarlyRefusesLookup | src/cli.py:183-188 | with an incomplete lookup the first stages fail having only loaded and reshaped |
| Cli.PrepareExtendsEarly | src/cli.py:167-221 | row and column selection only adds steps after loading, unpivot and lookup |
| Cli.ChartExtendsPrepare | src/cli.py:167-241 | the output stages only add steps after the data stages |
| Cli.FollowedStep | src/cli.py:167-241 | a step of a run that keeps to its plan is a step of the plan |
| Cli.ReshapePlanned | src/cli.py:169-172 | the plan reshapes only when asked |
| Cli.ReshapeLogged | src/cli.py:167-182 | a loaded input that is to be reshaped is reshaped right after loading |
| Cli.ReshapeExactlyWhenRequested | src/cli.py:169-182 | once the input is loaded, the table is reshaped exactly when `--id-cols` or `--value-start` is given |
| Cli.ChartDrawsPrepared | src/cli.py:227-241 | an exported chart was drawn from the table the data stages produced, and saved to `--output` in its suffix's format |
| Cli.DrawChartAsWritten | src/cli.py:231-240 | as written, the Plotly renderer never returns a figure: a call that gets past the builder's own checks fails on the `facet_columns` keyword; a custom class draws as `DrawChart` does |
| Cli.PlotlyNeverExportsAsWritten | src/cli.py:227-241 | as written, `chart` with the Plotly renderer always fails |
| Cli.PlotlyBarExports | src/cli.py:227-241 | once the data stages succeed and the suffix is known, the Plotly renderer exports a bar chart, where the command as written fails with the unexpected keyword |
| Cli.NoOptionsKeepsTable | src/cli.py:167-221 | with no reshaping, lookup, filter, exclusion or drop option, the loaded table is drawn as read |

## Left out

- File reading and writing: `pl.read_csv`/`read_json`/`read_parquet`, `export` and `to_html`. The readers are the parameter `read`; the export is the `Save` step.
- The polars outer join in `compare_datasets` is the parameter `joined`. Its row matching and `_b` renaming are not modelled.
- `apply_lookup`, `filter_data`, `exclude_values` and `drop_columns`: their code is not part of this model, so they are the parameters of `Cli.Ops`.
- Plotly Express figure construction and styling: marker sizes, colour scale, colour bar, font size, axis settings and hover modes. A chart is the Plotly Express call with its arguments (`PlotlyRenderer.PxCall`).
- The networkx layout numerics are the parameter `place`. The positions they return are opaque.
- `src/web.py`, `src/graphs/protocol.py` and `src/graphs/__init__.py`: UI, declarations and re-exports.
- The `compare`, `network` and `renderers` commands (console output around operations already modelled), and Typer's own option parsing. `ChartTypeOption` is taken as already converted to `ChartType`.
- Cli.DrawChart: a registered custom renderer class is foreign code; the model assumes its `create_chart` succeeds, though it may raise.
- Cli.DrawChart: the corrected drawing of "## Findings". The Plotly call succeeds and records the facet list among its keyword arguments; no faceting (dropdown, visibility) is drawn, since the renderer has no faceted path.
- Engine.StackedType: polars' supertype casting of value columns of different types is not modelled; the value column then gets a mixed type.
- Engine.CompareDatasets: the join is taken as given, so the model does not check that A's and B's columns reappear in it under their names. Its diff columns inherit the two limits below.
- Engine.DiffProblem: the table model knows Int64 and Float64 as its only numeric dtypes. A `_b` column of another numeric dtype (Int32, UInt8, Float32, an all-null column) falls under `OtherType` and is refused with `InvalidOperation`, though polars would subtract it.
- Engine.Subtract: floating subtraction is exact over the reals; Float64 rounding is not modelled. Integer subtraction wraps around at 64 bits as polars' Int64 does.
- Engine.LoadData: a stream is read into memory (`src/engine.py:28-29`) before its name is checked; consuming the stream is not modelled, only that no reader is called.
- Text.Lower: lower-casing is ASCII only; Unicode case mapping is not modelled.
- Cli.Suffix: `Path.suffix` follows Python up to 3.13, where a name ending in a dot has no suffix.
- Cli.Render: the export path is the `--output` text. The normalisation `str(Path(output))` applies (repeated or trailing slashes) is not modelled.
- PlotlyRenderer.NetworkFigureNodes: a node label is `show(node)`, a parameter standing for Python's `str`; float formatting is not modelled.
- NxGraph.AddEdge: node identity is Dafny equality of cells. Python's equal-hash keys (`1 == 1.0 == True`) are not merged.

## Findings

| source | as written | input that shows it | evidently intended | confidence | as-written member | corrected member |
|---|---|---|---|---|---|---|
| src/cli.py:239 | `chart` always passes `facet_columns=facet_columns` to `create_chart`; the Plotly builders forward it through `**kwargs` to `px.bar`, `px.line`, `px.scatter`, `px.histogram` or `px.pie`, none of which accepts that keyword, so the call raises `TypeError` | `viz chart data.csv --type bar --x category --y value -o chart.html`, with or without `--facets` | the chart is drawn and exported; the facet list does not break the Plotly call | high, not executed; rests on Plotly Express's published function signatures, which take no `**kwargs` | Cli.PlotlyNeverExportsAsWritten | Cli.PlotlyBarExports |
