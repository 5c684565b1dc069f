/**
 * src/graphs/plotly_renderer.py: the Plotly renderer. Statistical charts are one call into
 * Plotly Express chosen by chart type; a network chart is an undirected graph built from an
 * edge list, laid out, and drawn as two scatter traces (edges, then nodes).
 */
module PlotlyRenderer {
  import opened Base
  import opened Lists
  import opened Tables
  import opened GraphTypes
  import opened NxGraph

  // ---------------------------------------------------------------- create_chart

  /** The `chart_type` argument: a member of `ChartType`, or any other value a caller passes. */
  datatype ChartTypeArg = Known(kind: ChartType) | Unknown(raw: string)

  /** The `y` argument: one column name or a list of them. */
  datatype YArg = YColumn(name: string) | YColumns(names: seq<string>)

  /**
   * The Plotly Express call a builder makes, with the arguments it passes; `kwargs` are the
   * caller's extra keyword arguments, forwarded untouched.
   */
  datatype PxCall<K> =
    | PxBar(df: Table, x: string, y: YArg, title: Option<string>, color: Option<string>, kwargs: K)
    | PxLine(df: Table, x: string, y: YArg, title: Option<string>, color: Option<string>, kwargs: K)
    | PxScatter(df: Table, x: string, yColumn: string, title: Option<string>, color: Option<string>, kwargs: K)
    | PxHistogram(df: Table, x: string, title: Option<string>, color: Option<string>, kwargs: K)
    | PxPie(df: Table, names: string, values: string, title: Option<string>, kwargs: K)

  /** The chart type a Plotly Express call draws. */
  function CallKind<K>(call: PxCall<K>): ChartType {
    match call
    case PxBar(_, _, _, _, _, _) => Bar
    case PxLine(_, _, _, _, _, _) => Line
    case PxScatter(_, _, _, _, _, _) => Scatter
    case PxHistogram(_, _, _, _, _) => Histogram
    case PxPie(_, _, _, _, _) => Pie
  }

  /** `y[0] if isinstance(y, list) else y`: indexing an empty list raises `IndexError`. */
  function SingleY(y: YArg): (r: Result<string>)
    ensures r.Err? <==> y == YColumns([])
    ensures r.Err? ==> r.error == IndexError
    ensures y.YColumn? ==> r == Ok(y.name)
    ensures y.YColumns? && r.Ok? ==> r.value == y.names[0]
  {
    match y
    case YColumn(name) => Ok(name)
    case YColumns(names) => if names == [] then Err(IndexError) else Ok(names[0])
  }

  /**
   * `create_chart`: the builder of `chart_type` applied to the data, `x`, `y`, `title` and
   * `color`; any other chart type is refused.
   */
  function CreateChart<K>(df: Table, chartType: ChartTypeArg, x: string, y: YArg,
                          title: Option<string>, color: Option<string>, kwargs: K): (r: Result<PxCall<K>>)
    ensures chartType.Unknown? ==> r == Err(UnsupportedChartType(chartType.raw))
    ensures r.Ok? ==> chartType.Known? && CallKind(r.value) == chartType.kind
    ensures r.Ok? ==> r.value.df == df && r.value.title == title && r.value.kwargs == kwargs
  {
    match chartType
    case Unknown(raw) => Err(UnsupportedChartType(raw))
    case Known(kind) =>
      match kind
      case Bar => Ok(PxBar(df, x, y, title, color, kwargs))
      case Line => Ok(PxLine(df, x, y, title, color, kwargs))
      case Scatter =>
        (match SingleY(y)
         case Err(e) => Err(e)
         case Ok(col) => Ok(PxScatter(df, x, col, title, color, kwargs)))
      case Histogram => Ok(PxHistogram(df, x, title, color, kwargs))
      case Pie =>
        (match SingleY(y)
         case Err(e) => Err(e)
         case Ok(col) => Ok(PxPie(df, x, col, title, kwargs)))
  }

  /**
   * Every chart type has a builder: only scatter and pie can fail, and only on an empty
   * list of y columns.
   */
  lemma CreateChartFails<K>(df: Table, kind: ChartType, x: string, y: YArg,
                            title: Option<string>, color: Option<string>, kwargs: K)
    ensures CreateChart(df, Known(kind), x, y, title, color, kwargs).Err?
            <==> (kind == Scatter || kind == Pie) && y == YColumns([])
  {
  }

  /** Bar and line charts pass `y` and `color` as given, a single name or a whole list. */
  lemma BarLinePassY<K>(df: Table, kind: ChartType, x: string, y: YArg,
                        title: Option<string>, color: Option<string>, kwargs: K)
    requires kind == Bar || kind == Line
    ensures var r := CreateChart(df, Known(kind), x, y, title, color, kwargs);
      r.Ok? && r.value.x == x && r.value.y == y && r.value.color == color
  {
  }

  /** Scatter and pie plots draw only the first of a list of y columns. */
  lemma ScatterPieFirstY<K>(df: Table, kind: ChartType, x: string, ys: seq<string>,
                            title: Option<string>, color: Option<string>, kwargs: K)
    requires kind == Scatter || kind == Pie
    requires ys != []
    ensures CreateChart(df, Known(kind), x, YColumns(ys), title, color, kwargs)
            == CreateChart(df, Known(kind), x, YColumn(ys[0]), title, color, kwargs)
  {
  }

  /** A histogram ignores `y`. */
  lemma HistogramIgnoresY<K>(df: Table, x: string, y1: YArg, y2: YArg,
                             title: Option<string>, color: Option<string>, kwargs: K)
    ensures CreateChart(df, Known(Histogram), x, y1, title, color, kwargs)
            == CreateChart(df, Known(Histogram), x, y2, title, color, kwargs)
  {
  }

  /** A pie chart ignores `color`; its slices are named by `x` and sized by the y column. */
  lemma PieIgnoresColor<K>(df: Table, x: string, y: YArg, title: Option<string>,
                           c1: Option<string>, c2: Option<string>, kwargs: K)
    ensures CreateChart(df, Known(Pie), x, y, title, c1, kwargs)
            == CreateChart(df, Known(Pie), x, y, title, c2, kwargs)
    ensures y.YColumn? ==>
              CreateChart(df, Known(Pie), x, y, title, c1, kwargs) == Ok(PxPie(df, x, y.name, title, kwargs))
  {
  }

  // ---------------------------------------------------------------- _build_networkx_graph

  /** A cell used as a node key: a null cell is Python's `None`. */
  function NodeKey(c: Cell): (r: Option<Cell>)
    ensures r.None? <==> c.Null?
    ensures r.Some? ==> r.value == c
  {
    if c.Null? then None else Some(c)
  }

  /** Whether the optional weight column is named (a non-empty string) and is a column. */
  predicate HasWeight(t: Table, weight: Option<string>) {
    weight.Some? && weight.value != "" && weight.value in Names(t.columns)
  }

  /** The `add_edge` call made for one row: its source and target cells, and its weight cell. */
  function RowRequest(t: Table, row: Row, source: string, target: string, weight: Option<string>)
    : (r: EdgeRequest<Cell, Cell>)
    requires source in Names(t.columns) && target in Names(t.columns) && |row| == |t.columns|
    ensures r.attr.Some? <==> HasWeight(t, weight)
  {
    EdgeRequest(NodeKey(At(t, row, source)), NodeKey(At(t, row, target)),
                if HasWeight(t, weight) then Some(At(t, row, weight.value)) else None)
  }

  /** The `add_edge` calls made for the rows, in row order. */
  function Requests(t: Table, source: string, target: string, weight: Option<string>)
    : (r: seq<EdgeRequest<Cell, Cell>>)
    requires WellFormed(t) && source in Names(t.columns) && target in Names(t.columns)
    ensures |r| == |t.rows|
    ensures forall i :: 0 <= i < |t.rows| ==> r[i] == RowRequest(t, t.rows[i], source, target, weight)
  {
    seq(|t.rows|, i requires 0 <= i < |t.rows| => RowRequest(t, t.rows[i], source, target, weight))
  }

  /**
   * The graph `_build_networkx_graph` returns: looking up a missing source or target column
   * in the first row raises `KeyError`; otherwise the rows' edges are added in order.
   */
  function GraphOf(t: Table, source: string, target: string, weight: Option<string>)
    : Result<Graph<Cell, Cell>>
    requires WellFormed(t)
  {
    if t.rows == [] then Ok(EmptyGraph())
    else if source !in Names(t.columns) then Err(KeyError(source))
    else if target !in Names(t.columns) then Err(KeyError(target))
    else FromEdges(Requests(t, source, target, weight))
  }

  /** Failing at a prefix of the requests means failing at all of them. */
  lemma FromEdgesPrefixFails<N, W>(reqs: seq<EdgeRequest<N, W>>, i: nat)
    requires i <= |reqs| && FromEdges(reqs[..i]).Err?
    ensures FromEdges(reqs).Err? && FromEdges(reqs).error == FromEdges(reqs[..i]).error
  {
    FromEdgesFails(reqs[..i]);
    FromEdgesFails(reqs);
    var k :| 0 <= k < i && (reqs[..i][k].u.None? || reqs[..i][k].v.None?);
    assert reqs[k] == reqs[..i][k];
  }

  /** `_build_networkx_graph`: one `add_edge` per row, in row order. */
  method BuildGraph(t: Table, source: string, target: string, weight: Option<string>)
    returns (r: Result<Graph<Cell, Cell>>)
    requires WellFormed(t)
    ensures r == GraphOf(t, source, target, weight)
  {
    var g: Graph<Cell, Cell> := EmptyGraph();
    var i := 0;
    while i < |t.rows|
      invariant 0 <= i <= |t.rows|
      invariant i == 0 ==> g == EmptyGraph()
      invariant i > 0 ==> source in Names(t.columns) && target in Names(t.columns)
      invariant i > 0 ==> FromEdges(Requests(t, source, target, weight)[..i]) == Ok(g)
    {
      if source !in Names(t.columns) {
        return Err(KeyError(source));
      }
      if target !in Names(t.columns) {
        return Err(KeyError(target));
      }
      ghost var reqs := Requests(t, source, target, weight);
      var req := RowRequest(t, t.rows[i], source, target, weight);
      assert reqs[..i + 1][..i] == reqs[..i] && reqs[..i + 1][i] == req;
      assert i == 0 ==> reqs[..i] == [];
      match AddEdge(g, req)
      case Err(e) => {
        FromEdgesPrefixFails(reqs, i + 1);
        return Err(e);
      }
      case Ok(h) => {
        assert FromEdges(reqs[..i + 1]) == Ok(h);
        g := h;
      }
      i := i + 1;
    }
    if i > 0 {
      assert Requests(t, source, target, weight)[..i] == Requests(t, source, target, weight);
    }
    return Ok(g);
  }

  /** Building fails exactly on a missing column (with rows present) or a null endpoint. */
  lemma GraphOfFails(t: Table, source: string, target: string, weight: Option<string>)
    requires WellFormed(t)
    ensures var r := GraphOf(t, source, target, weight);
      && (t.rows != [] && source !in Names(t.columns) ==> r == Err(KeyError(source)))
      && (t.rows != [] && source in Names(t.columns) && target !in Names(t.columns) ==> r == Err(KeyError(target)))
      && (t.rows != [] && source in Names(t.columns) && target in Names(t.columns) ==>
            (r.Err? <==> exists i :: 0 <= i < |t.rows| && (At(t, t.rows[i], source).Null? || At(t, t.rows[i], target).Null?)))
  {
    if t.rows != [] && source in Names(t.columns) && target in Names(t.columns) {
      var reqs := Requests(t, source, target, weight);
      FromEdgesFails(reqs);
      if HasNoneNode(reqs) {
        var i :| 0 <= i < |reqs| && (reqs[i].u.None? || reqs[i].v.None?);
        assert At(t, t.rows[i], source).Null? || At(t, t.rows[i], target).Null?;
      }
      if exists i :: 0 <= i < |t.rows| && (At(t, t.rows[i], source).Null? || At(t, t.rows[i], target).Null?) {
        var i :| 0 <= i < |t.rows| && (At(t, t.rows[i], source).Null? || At(t, t.rows[i], target).Null?);
        assert reqs[i].u.None? || reqs[i].v.None?;
      }
    }
  }

  /**
   * The nodes of the graph are exactly the source and target values of the rows, and there
   * is at most one edge per row.
   */
  lemma GraphOfNodes(t: Table, source: string, target: string, weight: Option<string>, x: Cell)
    requires WellFormed(t) && GraphOf(t, source, target, weight).Ok?
    ensures var g := GraphOf(t, source, target, weight).value;
      && Valid(g)
      && |g.edges| <= |t.rows|
      && (x in g.nodes <==> exists i :: 0 <= i < |t.rows| && (At(t, t.rows[i], source) == x || At(t, t.rows[i], target) == x) && !x.Null?)
  {
    if t.rows != [] {
      var reqs := Requests(t, source, target, weight);
      FromEdgesValid(reqs);
      FromEdgesCount(reqs);
      FromEdgesNodes(reqs, x);
      if Mentioned(reqs, x) {
        var i :| 0 <= i < |reqs| && (reqs[i].u == Some(x) || reqs[i].v == Some(x));
        assert At(t, t.rows[i], source) == x || At(t, t.rows[i], target) == x;
      }
      if exists i :: 0 <= i < |t.rows| && (At(t, t.rows[i], source) == x || At(t, t.rows[i], target) == x) && !x.Null? {
        var i :| 0 <= i < |t.rows| && (At(t, t.rows[i], source) == x || At(t, t.rows[i], target) == x) && !x.Null?;
        assert reqs[i].u == Some(x) || reqs[i].v == Some(x);
      }
    }
  }

  /** Each row's two values are joined by an edge, whichever order they came in. */
  lemma GraphOfJoins(t: Table, source: string, target: string, weight: Option<string>, i: nat)
    requires WellFormed(t) && GraphOf(t, source, target, weight).Ok? && i < |t.rows|
    ensures source in Names(t.columns) && target in Names(t.columns)
    ensures Linked(GraphOf(t, source, target, weight).value.edges, At(t, t.rows[i], source), At(t, t.rows[i], target))
  {
    var reqs := Requests(t, source, target, weight);
    FromEdgesJoins(reqs, i);
  }

  /** The weight the rows give the pair `a`–`b`: the last row for that pair, if any names one. */
  function RowWeight(t: Table, source: string, target: string, weight: Option<string>, a: Cell, b: Cell)
    : Option<Cell>
    requires WellFormed(t) && source in Names(t.columns) && target in Names(t.columns)
  {
    LastAttr(Requests(t, source, target, weight), a, b)
  }

  /**
   * Edge weights: an edge carries the weight cell of the last row that joins its pair, and no
   * edge carries one unless the weight column is named and exists.
   */
  lemma GraphOfWeights(t: Table, source: string, target: string, weight: Option<string>, k: nat)
    requires WellFormed(t) && GraphOf(t, source, target, weight).Ok?
    requires k < |GraphOf(t, source, target, weight).value.edges|
    ensures source in Names(t.columns) && target in Names(t.columns)
    ensures var e := GraphOf(t, source, target, weight).value.edges[k];
      && e.data == RowWeight(t, source, target, weight, e.u, e.v)
      && (!HasWeight(t, weight) ==> e.data.None?)
  {
    var reqs := Requests(t, source, target, weight);
    FromEdgesWeights(reqs, k);
    var e := FromEdges(reqs).value.edges[k];
    if !HasWeight(t, weight) {
      LastAttrNone(reqs, e.u, e.v);
    }
  }

  /** Requests that give no weight leave every pair without one. */
  lemma {:induction false} LastAttrNone<N, W>(reqs: seq<EdgeRequest<N, W>>, a: N, b: N)
    requires forall i :: 0 <= i < |reqs| ==> reqs[i].attr.None?
    ensures LastAttr(reqs, a, b).None?
  {
    if reqs != [] {
      LastAttrNone(reqs[..|reqs| - 1], a, b);
    }
  }

  // ---------------------------------------------------------------- _calculate_layout

  /** The layout algorithms the renderer knows. */
  datatype Layout = Spring | Circular | KamadaKawai | Shell | Random

  /** The name each layout is requested by. */
  function LayoutName(l: Layout): string {
    match l
    case Spring => "spring"
    case Circular => "circular"
    case KamadaKawai => "kamada_kawai"
    case Shell => "shell"
    case Random => "random"
  }

  /** `_calculate_layout`'s choice: the layout of that name; the spring layout for any other name. */
  function LayoutNamed(name: string): (l: Layout)
    ensures LayoutName(l) == name || (l == Spring && forall m: Layout :: LayoutName(m) != name)
  {
    if name == "circular" then Circular
    else if name == "kamada_kawai" then KamadaKawai
    else if name == "shell" then Shell
    else if name == "random" then Random
    else Spring
  }

  /** Every layout is chosen by its own name. */
  lemma LayoutRoundTrip(l: Layout)
    ensures LayoutNamed(LayoutName(l)) == l
  {
  }

  // ---------------------------------------------------------------- _render_network_figure

  /** A node position. */
  datatype Point<C> = Point(x: C, y: C)

  datatype Axis = X | Y

  function Coord<C>(p: Point<C>, axis: Axis): C {
    if axis == X then p.x else p.y
  }

  /**
   * A scatter trace: the edge trace holds coordinates with `None` separators and is drawn as
   * lines; the node trace holds one point, label and marker colour per node.
   */
  datatype Trace<C> =
    | EdgeTrace(ex: seq<Option<C>>, ey: seq<Option<C>>, mode: string)
    | NodeTrace(nx: seq<C>, ny: seq<C>, mode: string, text: seq<string>, color: seq<nat>)

  datatype Figure<C> = Figure(data: seq<Trace<C>>, title: string)

  /** The title used when none (or an empty one) is given. */
  const DefaultTitle: string := "Network Graph"

  /** One axis of the edge trace: both ends of each reported edge, then a `None` break. */
  function EdgeLine<N, C>(view: seq<(N, N)>, pos: N -> Point<C>, axis: Axis): (r: seq<Option<C>>)
    ensures |r| == 3 * |view|
  {
    if view == [] then []
    else
      var (a, b) := view[|view| - 1];
      EdgeLine(view[..|view| - 1], pos, axis) + [Some(Coord(pos(a), axis)), Some(Coord(pos(b), axis)), None]
  }

  /** The `k`-th triple of an edge line is the `k`-th edge's two ends and a break. */
  lemma {:induction false} EdgeLineAt<N, C>(view: seq<(N, N)>, pos: N -> Point<C>, axis: Axis, k: nat)
    requires k < |view|
    ensures var r := EdgeLine(view, pos, axis);
      && r[3 * k] == Some(Coord(pos(view[k].0), axis))
      && r[3 * k + 1] == Some(Coord(pos(view[k].1), axis))
      && r[3 * k + 2] == None
  {
    if k < |view| - 1 {
      EdgeLineAt(view[..|view| - 1], pos, axis, k);
    }
  }

  /** One axis of the node positions, in node order. */
  function NodeLine<N, C>(nodes: seq<N>, pos: N -> Point<C>, axis: Axis): seq<C> {
    seq(|nodes|, i requires 0 <= i < |nodes| => Coord(pos(nodes[i]), axis))
  }

  /** `title or "Network Graph"`. */
  function TitleOr(title: Option<string>): string {
    if title.None? || title.value == "" then DefaultTitle else title.value
  }

  /**
   * The figure `_render_network_figure` builds from a graph, its positions and a title;
   * `show` is Python's `str` on node values.
   */
  function NetworkFigure<N(==), W, C>(g: Graph<N, W>, pos: N -> Point<C>, title: Option<string>,
                                      show: N -> string): Figure<C>
  {
    var view := EdgeView(g);
    Figure(
      [ EdgeTrace(EdgeLine(view, pos, X), EdgeLine(view, pos, Y), "lines"),
        NodeTrace(NodeLine(g.nodes, pos, X), NodeLine(g.nodes, pos, Y), "markers+text",
                  seq(|g.nodes|, i requires 0 <= i < |g.nodes| => show(g.nodes[i])),
                  seq(|g.nodes|, i requires 0 <= i < |g.nodes| => Degree(g, g.nodes[i]))) ],
      TitleOr(title))
  }

  /** The loop of `_render_network_figure` over the reported edges, collecting both axes. */
  method EdgeCoordinates<N, C>(view: seq<(N, N)>, pos: N -> Point<C>) returns (ex: seq<Option<C>>, ey: seq<Option<C>>)
    ensures ex == EdgeLine(view, pos, X) && ey == EdgeLine(view, pos, Y)
  {
    ex, ey := [], [];
    var i := 0;
    while i < |view|
      invariant 0 <= i <= |view|
      invariant ex == EdgeLine(view[..i], pos, X) && ey == EdgeLine(view[..i], pos, Y)
    {
      var (a, b) := view[i];
      var p0, p1 := pos(a), pos(b);
      ex := ex + [Some(p0.x), Some(p1.x), None];
      ey := ey + [Some(p0.y), Some(p1.y), None];
      assert view[..i + 1][..i] == view[..i];
      i := i + 1;
    }
    assert view[..i] == view;
  }

  /** `_render_network_figure`: the edge coordinates are collected in a loop over `graph.edges()`. */
  method RenderNetwork<N(==), W, C>(g: Graph<N, W>, pos: N -> Point<C>, title: Option<string>,
                                    show: N -> string) returns (fig: Figure<C>)
    ensures fig == NetworkFigure(g, pos, title, show)
  {
    var ex, ey := EdgeCoordinates(EdgeView(g), pos);
    var edgeTrace := EdgeTrace(ex, ey, "lines");
    var nodeX := seq(|g.nodes|, k requires 0 <= k < |g.nodes| => pos(g.nodes[k]).x);
    var nodeY := seq(|g.nodes|, k requires 0 <= k < |g.nodes| => pos(g.nodes[k]).y);
    var degrees := seq(|g.nodes|, k requires 0 <= k < |g.nodes| => Degree(g, g.nodes[k]));
    var labels := seq(|g.nodes|, k requires 0 <= k < |g.nodes| => show(g.nodes[k]));
    var nodeTrace := NodeTrace(nodeX, nodeY, "markers+text", labels, degrees);
    assert nodeX == NodeLine(g.nodes, pos, X) && nodeY == NodeLine(g.nodes, pos, Y);
    fig := Figure([edgeTrace, nodeTrace], if title.None? || title.value == "" then DefaultTitle else title.value);
  }

  /**
   * The figure has two traces, edges first; the title falls back to "Network Graph" when
   * none or an empty one is given.
   */
  lemma NetworkFigureShape<N, W, C>(g: Graph<N, W>, pos: N -> Point<C>, title: Option<string>, show: N -> string)
    ensures var fig := NetworkFigure(g, pos, title, show);
      && |fig.data| == 2
      && fig.data[0].EdgeTrace? && fig.data[0].mode == "lines"
      && fig.data[1].NodeTrace? && fig.data[1].mode == "markers+text"
      && (title.None? || title == Some("") ==> fig.title == "Network Graph")
      && (title.Some? && title.value != "" ==> fig.title == title.value)
  {
  }

  /**
   * The edge trace: three entries per edge of the graph, the `k`-th triple holding the two
   * ends of the `k`-th pair `graph.edges()` reports and a `None` break; every such pair is
   * joined by an edge.
   */
  lemma NetworkFigureEdges<N, W, C>(g: Graph<N, W>, pos: N -> Point<C>, title: Option<string>,
                                    show: N -> string, k: nat)
    requires Valid(g)
    ensures var t := NetworkFigure(g, pos, title, show).data[0];
      |t.ex| == 3 * |g.edges| && |t.ey| == 3 * |g.edges|
    ensures k < |g.edges| ==>
      var t, view := NetworkFigure(g, pos, title, show).data[0], EdgeView(g);
      && Linked(g.edges, view[k].0, view[k].1)
      && t.ex[3 * k] == Some(pos(view[k].0).x) && t.ex[3 * k + 1] == Some(pos(view[k].1).x) && t.ex[3 * k + 2] == None
      && t.ey[3 * k] == Some(pos(view[k].0).y) && t.ey[3 * k + 1] == Some(pos(view[k].1).y) && t.ey[3 * k + 2] == None
  {
    EdgeViewSize(g.nodes, g.edges);
    if k < |g.edges| {
      ViewFromJoins(g.nodes, 0, g.edges, k);
      EdgeLineAt(EdgeView(g), pos, X, k);
      EdgeLineAt(EdgeView(g), pos, Y, k);
    }
  }

  /** Every edge of the graph is drawn: some triple of the edge trace joins its two ends. */
  lemma NetworkFigureDrawsEveryEdge<N, W, C>(g: Graph<N, W>, pos: N -> Point<C>, title: Option<string>,
                                             show: N -> string, k: nat)
    requires Valid(g) && k < |g.edges|
    ensures var t, view := NetworkFigure(g, pos, title, show).data[0], EdgeView(g);
      exists p :: 0 <= p < |view| && Joins(g.edges[k], view[p].0, view[p].1)
        && t.ex[3 * p] == Some(pos(view[p].0).x) && t.ex[3 * p + 1] == Some(pos(view[p].1).x)
        && t.ey[3 * p] == Some(pos(view[p].0).y) && t.ey[3 * p + 1] == Some(pos(view[p].1).y)
  {
    EdgeViewIsEdges(g);
    var view := EdgeView(g);
    assert Covers(view, g.edges[k]);
    var p :| 0 <= p < |view| && Joins(g.edges[k], view[p].0, view[p].1);
    NetworkFigureEdges(g, pos, title, show, p);
  }

  /**
   * The node trace: x, y, label and marker colour share the node order; the label is the
   * node's text and the colour its degree.
   */
  lemma NetworkFigureNodes<N, W, C>(g: Graph<N, W>, pos: N -> Point<C>, title: Option<string>,
                                    show: N -> string, i: nat)
    requires i < |g.nodes|
    ensures var t := NetworkFigure(g, pos, title, show).data[1];
      && |t.nx| == |t.ny| == |t.text| == |t.color| == |g.nodes|
      && t.nx[i] == pos(g.nodes[i]).x && t.ny[i] == pos(g.nodes[i]).y
      && t.text[i] == show(g.nodes[i]) && t.color[i] == Degree(g, g.nodes[i])
  {
  }

  // ---------------------------------------------------------------- create_network

  /**
   * `create_network`: build the graph, place its nodes with the chosen layout (`place` stands
   * for the networkx layout functions), and draw it.
   */
  method CreateNetwork<C>(t: Table, source: string, target: string, weight: Option<string>,
                          title: Option<string>, layout: string,
                          place: (Layout, Graph<Cell, Cell>) -> (Cell -> Point<C>), show: Cell -> string)
    returns (r: Result<Figure<C>>)
    requires WellFormed(t)
    ensures var g := GraphOf(t, source, target, weight);
      && (r.Err? <==> g.Err?)
      && (r.Err? ==> r.error == g.error)
      && (r.Ok? ==> r.value == NetworkFigure(g.value, place(LayoutNamed(layout), g.value), title, show))
  {
    var built := BuildGraph(t, source, target, weight);
    match built
    case Err(e) => {
      return Err(e);
    }
    case Ok(g) => {
      var positions := place(LayoutNamed(layout), g);
      var fig := RenderNetwork(g, positions, title, show);
      return Ok(fig);
    }
  }
}
