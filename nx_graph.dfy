/**
 * The part of an undirected networkx `Graph` the renderer relies on: nodes kept in insertion
 * order, each unordered pair joined by at most one edge carrying an optional `weight`, the
 * neighbour order, the degree and the order in which `graph.edges()` reports the edges.
 */
module NxGraph {
  import opened Base
  import opened Lists

  /** An edge between `u` and `v` (in the order it was first added) and its `weight`, if set. */
  datatype Edge<N, W> = Edge(u: N, v: N, data: Option<W>)

  /** Nodes in insertion order; edges in the order their pair was first added. */
  datatype Graph<N, W> = Graph(nodes: seq<N>, edges: seq<Edge<N, W>>)

  /** One `add_edge(u, v, **attr)` call; `None` stands for Python's `None`. */
  datatype EdgeRequest<N, W> = EdgeRequest(u: Option<N>, v: Option<N>, attr: Option<W>)

  predicate Joins<N(==), W>(e: Edge<N, W>, a: N, b: N) {
    (e.u == a && e.v == b) || (e.u == b && e.v == a)
  }

  /**
   * No node twice, both ends of every edge are nodes, and no two edges join the same
   * unordered pair.
   */
  ghost predicate Valid<N, W>(g: Graph<N, W>) {
    && Distinct(g.nodes)
    && (forall k :: 0 <= k < |g.edges| ==> g.edges[k].u in g.nodes && g.edges[k].v in g.nodes)
    && (forall i, j :: 0 <= i < j < |g.edges| ==> !Joins(g.edges[i], g.edges[j].u, g.edges[j].v))
  }

  function EmptyGraph<N, W>(): (g: Graph<N, W>)
    ensures Valid(g) && g.nodes == [] && g.edges == []
  {
    Graph([], [])
  }

  /** The position of the edge joining `a` and `b`, if there is one. */
  function FindEdge<N(==), W>(edges: seq<Edge<N, W>>, a: N, b: N): (r: Option<nat>)
    ensures r.None? <==> forall k :: 0 <= k < |edges| ==> !Joins(edges[k], a, b)
    ensures r.Some? ==> r.value < |edges| && Joins(edges[r.value], a, b)
  {
    if edges == [] then None
    else if Joins(edges[|edges| - 1], a, b) then Some(|edges| - 1)
    else FindEdge(edges[..|edges| - 1], a, b)
  }

  /** Adds `n` at the end unless it is already a node. */
  function AddNode<N(==)>(nodes: seq<N>, n: N): (r: seq<N>)
    ensures Distinct(nodes) ==> Distinct(r)
    ensures |r| >= |nodes|
  {
    if n in nodes then nodes
    else
      assert Distinct(nodes) ==> Distinct(nodes + [n]) by {
        if Distinct(nodes) { DistinctSnoc(nodes, n); }
      }
      nodes + [n]
  }

  lemma AddNodeMembers<N>(nodes: seq<N>, n: N, x: N)
    ensures x in AddNode(nodes, n) <==> x in nodes || x == n
  {
  }

  /**
   * `Graph.add_edge(u, v, **attr)`: `None` cannot be a node; missing endpoints become nodes
   * (`u` first); a new pair gets a new edge at the end; an existing pair keeps its place
   * and its weight unless `attr` gives a new one.
   */
  function AddEdge<N(==), W>(g: Graph<N, W>, req: EdgeRequest<N, W>): (r: Result<Graph<N, W>>)
    ensures r.Err? <==> req.u.None? || req.v.None?
    ensures r.Err? ==> r.error == NoneNode
  {
    if req.u.None? || req.v.None? then Err(NoneNode)
    else
      var a, b := req.u.value, req.v.value;
      var nodes := AddNode(AddNode(g.nodes, a), b);
      match FindEdge(g.edges, a, b)
      case None => Ok(Graph(nodes, g.edges + [Edge(a, b, req.attr)]))
      case Some(k) =>
        if req.attr.Some? then Ok(Graph(nodes, g.edges[k := g.edges[k].(data := req.attr)]))
        else Ok(Graph(nodes, g.edges))
  }

  lemma AddEdgeValid<N, W>(g: Graph<N, W>, req: EdgeRequest<N, W>)
    requires Valid(g) && AddEdge(g, req).Ok?
    ensures Valid(AddEdge(g, req).value)
  {
    var a, b := req.u.value, req.v.value;
    var h := AddEdge(g, req).value;
    if FindEdge(g.edges, a, b).None? {
      forall i, j | 0 <= i < j < |h.edges| ensures !Joins(h.edges[i], h.edges[j].u, h.edges[j].v) {
        if j == |g.edges| {
          assert !Joins(g.edges[i], a, b);
        } else {
          assert h.edges[i] == g.edges[i] && h.edges[j] == g.edges[j];
        }
      }
    }
  }

  /** The endpoints of a successful `add_edge` are nodes of the new graph, next to the old ones. */
  lemma AddEdgeNodes<N, W>(g: Graph<N, W>, req: EdgeRequest<N, W>, x: N)
    requires AddEdge(g, req).Ok?
    ensures x in AddEdge(g, req).value.nodes <==> x in g.nodes || req.u == Some(x) || req.v == Some(x)
  {
    AddNodeMembers(g.nodes, req.u.value, x);
    AddNodeMembers(AddNode(g.nodes, req.u.value), req.v.value, x);
  }

  /** Whether some edge joins `a` and `b`. */
  predicate Linked<N(==), W>(edges: seq<Edge<N, W>>, a: N, b: N) {
    exists k :: 0 <= k < |edges| && Joins(edges[k], a, b)
  }

  /** `add_edge` adds one edge at most, keeps every old edge's pair in place, and joins its own pair. */
  lemma AddEdgeEdges<N, W>(g: Graph<N, W>, req: EdgeRequest<N, W>)
    requires AddEdge(g, req).Ok?
    ensures var h := AddEdge(g, req).value;
      && |g.edges| <= |h.edges| <= |g.edges| + 1
      && (forall k :: 0 <= k < |g.edges| ==> h.edges[k].u == g.edges[k].u && h.edges[k].v == g.edges[k].v)
      && Linked(h.edges, req.u.value, req.v.value)
  {
    var h := AddEdge(g, req).value;
    var a, b := req.u.value, req.v.value;
    if FindEdge(g.edges, a, b).None? {
      assert Joins(h.edges[|g.edges|], a, b);
    } else {
      var k := FindEdge(g.edges, a, b).value;
      assert Joins(h.edges[k], a, b);
    }
  }

  /** Builds a graph by adding the requested edges one after the other. */
  function FromEdges<N(==), W>(reqs: seq<EdgeRequest<N, W>>): (r: Result<Graph<N, W>>)
  {
    if reqs == [] then Ok(EmptyGraph())
    else
      match FromEdges(reqs[..|reqs| - 1])
      case Err(e) => Err(e)
      case Ok(g) => AddEdge(g, reqs[|reqs| - 1])
  }

  /** A successful build is the build of all requests but the last, then the last one. */
  lemma FromEdgesStep<N, W>(reqs: seq<EdgeRequest<N, W>>)
    requires reqs != [] && FromEdges(reqs).Ok?
    ensures FromEdges(reqs[..|reqs| - 1]).Ok?
    ensures FromEdges(reqs) == AddEdge(FromEdges(reqs[..|reqs| - 1]).value, reqs[|reqs| - 1])
  {
  }

  /** The graph built is valid. */
  lemma {:induction false} FromEdgesValid<N, W>(reqs: seq<EdgeRequest<N, W>>)
    requires FromEdges(reqs).Ok?
    ensures Valid(FromEdges(reqs).value)
  {
    if reqs != [] {
      FromEdgesStep(reqs);
      FromEdgesValid(reqs[..|reqs| - 1]);
      AddEdgeValid(FromEdges(reqs[..|reqs| - 1]).value, reqs[|reqs| - 1]);
    }
  }

  /** Whether some request has a missing endpoint. */
  predicate HasNoneNode<N, W>(reqs: seq<EdgeRequest<N, W>>) {
    exists i :: 0 <= i < |reqs| && (reqs[i].u.None? || reqs[i].v.None?)
  }

  /** Building fails exactly when a request has a `None` endpoint, and then with that error. */
  lemma {:induction false} FromEdgesFails<N, W>(reqs: seq<EdgeRequest<N, W>>)
    ensures FromEdges(reqs).Err? <==> HasNoneNode(reqs)
    ensures FromEdges(reqs).Err? ==> FromEdges(reqs).error == NoneNode
  {
    if reqs != [] {
      var init, last := reqs[..|reqs| - 1], reqs[|reqs| - 1];
      FromEdgesFails(init);
      HasNoneNodeSnoc(reqs);
    }
  }

  lemma HasNoneNodeSnoc<N, W>(reqs: seq<EdgeRequest<N, W>>)
    requires reqs != []
    ensures var init, last := reqs[..|reqs| - 1], reqs[|reqs| - 1];
      HasNoneNode(reqs) <==> HasNoneNode(init) || last.u.None? || last.v.None?
  {
    var init := reqs[..|reqs| - 1];
    if HasNoneNode(init) {
      var i :| 0 <= i < |init| && (init[i].u.None? || init[i].v.None?);
      assert reqs[i] == init[i];
    }
  }

  /** Whether `x` is an endpoint of some request. */
  predicate Mentioned<N(==), W>(reqs: seq<EdgeRequest<N, W>>, x: N) {
    exists i :: 0 <= i < |reqs| && (reqs[i].u == Some(x) || reqs[i].v == Some(x))
  }

  /** The nodes are exactly the endpoints of the requests. */
  lemma {:induction false} FromEdgesNodes<N, W>(reqs: seq<EdgeRequest<N, W>>, x: N)
    requires FromEdges(reqs).Ok?
    ensures x in FromEdges(reqs).value.nodes <==> Mentioned(reqs, x)
  {
    if reqs != [] {
      var init, last := reqs[..|reqs| - 1], reqs[|reqs| - 1];
      FromEdgesStep(reqs);
      var g, h := FromEdges(init).value, FromEdges(reqs).value;
      FromEdgesNodes(init, x);
      AddEdgeNodes(g, last, x);
      assert x in h.nodes <==> x in g.nodes || last.u == Some(x) || last.v == Some(x);
      MentionedSnoc(reqs, x);
    }
  }

  lemma MentionedSnoc<N, W>(reqs: seq<EdgeRequest<N, W>>, x: N)
    requires reqs != []
    ensures var init, last := reqs[..|reqs| - 1], reqs[|reqs| - 1];
      Mentioned(reqs, x) <==> Mentioned(init, x) || last.u == Some(x) || last.v == Some(x)
  {
    var init := reqs[..|reqs| - 1];
    if Mentioned(init, x) {
      var i :| 0 <= i < |init| && (init[i].u == Some(x) || init[i].v == Some(x));
      assert reqs[i] == init[i];
    }
  }

  /** One edge per request at most: repeated pairs share an edge. */
  lemma {:induction false} FromEdgesCount<N, W>(reqs: seq<EdgeRequest<N, W>>)
    requires FromEdges(reqs).Ok?
    ensures |FromEdges(reqs).value.edges| <= |reqs|
  {
    if reqs != [] {
      FromEdgesStep(reqs);
      FromEdgesCount(reqs[..|reqs| - 1]);
      AddEdgeEdges(FromEdges(reqs[..|reqs| - 1]).value, reqs[|reqs| - 1]);
    }
  }

  /** Every request's pair is joined by an edge of the result. */
  lemma {:induction false} FromEdgesJoins<N, W>(reqs: seq<EdgeRequest<N, W>>, i: nat)
    requires FromEdges(reqs).Ok? && i < |reqs|
    ensures reqs[i].u.Some? && reqs[i].v.Some?
    ensures Linked(FromEdges(reqs).value.edges, reqs[i].u.value, reqs[i].v.value)
  {
    var init, last := reqs[..|reqs| - 1], reqs[|reqs| - 1];
    FromEdgesStep(reqs);
    var g, h := FromEdges(init).value, FromEdges(reqs).value;
    if i == |reqs| - 1 {
      AddEdgeEdges(g, last);
    } else {
      assert reqs[i] == init[i];
      FromEdgesJoins(init, i);
      var a, b := init[i].u.value, init[i].v.value;
      var k :| 0 <= k < |g.edges| && Joins(g.edges[k], a, b);
      AddEdgeEdges(g, last);
      assert Joins(h.edges[k], a, b);
    }
  }

  /** The weight given by the last request for the pair `a`–`b` that gives one. */
  function LastAttr<N(==), W>(reqs: seq<EdgeRequest<N, W>>, a: N, b: N): Option<W> {
    if reqs == [] then None
    else
      var last := reqs[|reqs| - 1];
      if last.attr.Some? && last.u.Some? && last.v.Some? && JoinsPair(last.u.value, last.v.value, a, b)
      then last.attr
      else LastAttr(reqs[..|reqs| - 1], a, b)
  }

  predicate JoinsPair<N(==)>(x: N, y: N, a: N, b: N) {
    (x == a && y == b) || (x == b && y == a)
  }

  /**
   * The weights after one `add_edge`: the edge of the requested pair takes the given weight,
   * if any; a new pair's edge has exactly the given one; every other edge keeps its own.
   */
  lemma AddEdgeData<N, W>(g: Graph<N, W>, req: EdgeRequest<N, W>, k: nat)
    requires Valid(g) && AddEdge(g, req).Ok? && k < |AddEdge(g, req).value.edges|
    ensures var h, a, b := AddEdge(g, req).value, req.u.value, req.v.value;
      if k < |g.edges| then
        h.edges[k].data == if req.attr.Some? && Joins(g.edges[k], a, b) then req.attr else g.edges[k].data
      else
        h.edges[k] == Edge(a, b, req.attr) && FindEdge(g.edges, a, b).None?
  {
    var a, b := req.u.value, req.v.value;
    if k < |g.edges| && Joins(g.edges[k], a, b) {
      var f := FindEdge(g.edges, a, b).value;
      var ef, ek := g.edges[f], g.edges[k];
      JoinsSame(ef, ek, a, b);
      JoinsSame(ek, ef, a, b);
    }
  }

  /** Two edges that join the same pair join each other's endpoints. */
  lemma JoinsSame<N, W>(e: Edge<N, W>, f: Edge<N, W>, a: N, b: N)
    ensures Joins(e, a, b) && Joins(f, a, b) ==> Joins(e, f.u, f.v)
  {
  }

  /**
   * A repeated pair keeps the last weight given for it; an edge whose requests never give
   * a weight has none.
   */
  lemma {:induction false} FromEdgesWeights<N, W>(reqs: seq<EdgeRequest<N, W>>, k: nat)
    requires FromEdges(reqs).Ok? && k < |FromEdges(reqs).value.edges|
    ensures var e := FromEdges(reqs).value.edges[k]; e.data == LastAttr(reqs, e.u, e.v)
  {
    var init, last := reqs[..|reqs| - 1], reqs[|reqs| - 1];
    FromEdgesStep(reqs);
    var g, h := FromEdges(init).value, FromEdges(reqs).value;
    var a, b := last.u.value, last.v.value;
    FromEdgesValid(init);
    AddEdgeData(g, last, k);
    AddEdgeEdges(g, last);
    if k < |g.edges| {
      FromEdgesWeights(init, k);
      assert JoinsPair(a, b, h.edges[k].u, h.edges[k].v) <==> Joins(g.edges[k], a, b);
    } else {
      LastAttrNew(init, a, b, g);
    }
  }

  /** A pair that has no edge yet was never given a weight. */
  lemma LastAttrNew<N, W>(reqs: seq<EdgeRequest<N, W>>, a: N, b: N, g: Graph<N, W>)
    requires FromEdges(reqs) == Ok(g) && FindEdge(g.edges, a, b).None?
    ensures LastAttr(reqs, a, b) == None
  {
    if LastAttr(reqs, a, b).Some? {
      var i := LastAttrWitness(reqs, a, b);
      FromEdgesJoins(reqs, i);
    }
  }

  /** A weight found for a pair comes from a request for that pair. */
  lemma {:induction false} LastAttrWitness<N, W>(reqs: seq<EdgeRequest<N, W>>, a: N, b: N) returns (i: nat)
    requires LastAttr(reqs, a, b).Some?
    ensures i < |reqs| && reqs[i].u.Some? && reqs[i].v.Some?
    ensures JoinsPair(reqs[i].u.value, reqs[i].v.value, a, b)
  {
    var last := reqs[|reqs| - 1];
    if last.attr.Some? && last.u.Some? && last.v.Some? && JoinsPair(last.u.value, last.v.value, a, b) {
      i := |reqs| - 1;
    } else {
      i := LastAttrWitness(reqs[..|reqs| - 1], a, b);
      assert reqs[i] == reqs[..|reqs| - 1][i];
    }
  }

  // ---------------------------------------------------------------- adjacency

  predicate Touches<N(==), W>(e: Edge<N, W>, n: N) {
    e.u == n || e.v == n
  }

  /** The far end of `e` seen from `n`; `n` itself for a self-loop. */
  function Other<N(==), W>(e: Edge<N, W>, n: N): N
    requires Touches(e, n)
  {
    if e.u == n then e.v else e.u
  }

  /** `graph[n]`: the neighbours of `n` in the order their edges were first added. */
  function Neighbors<N(==), W>(edges: seq<Edge<N, W>>, n: N): (r: seq<N>)
    ensures |r| <= |edges|
  {
    if edges == [] then []
    else
      Neighbors(edges[..|edges| - 1], n)
      + (if Touches(edges[|edges| - 1], n) then [Other(edges[|edges| - 1], n)] else [])
  }

  predicate HasSelfLoop<N(==), W>(edges: seq<Edge<N, W>>, n: N) {
    exists k :: 0 <= k < |edges| && edges[k].u == n && edges[k].v == n
  }

  /** The number of edges touching `n`. */
  function Incident<N(==), W>(edges: seq<Edge<N, W>>, n: N): nat {
    if edges == [] then 0
    else Incident(edges[..|edges| - 1], n) + if Touches(edges[|edges| - 1], n) then 1 else 0
  }

  /** Each edge touching `n` contributes one neighbour. */
  lemma {:induction false} NeighborsCount<N, W>(edges: seq<Edge<N, W>>, n: N)
    ensures |Neighbors(edges, n)| == Incident(edges, n)
  {
    if edges != [] {
      NeighborsCount(edges[..|edges| - 1], n);
    }
  }

  /**
   * `graph.degree(n)`: one per neighbour, a self-loop counting twice; that is, one per edge
   * touching `n` and one more for a self-loop.
   */
  function Degree<N(==), W>(g: Graph<N, W>, n: N): (d: nat)
    ensures d >= |Neighbors(g.edges, n)|
    ensures d == Incident(g.edges, n) + if HasSelfLoop(g.edges, n) then 1 else 0
  {
    NeighborsCount(g.edges, n);
    |Neighbors(g.edges, n)| + if HasSelfLoop(g.edges, n) then 1 else 0
  }

  // ---------------------------------------------------------------- edges()

  /**
   * The pairs `graph.edges()` yields while visiting node `i`: `(nodes[i], m)` for every
   * neighbour `m` of `nodes[i]` that is not an earlier node, in neighbour order.
   */
  function ViewAt<N(==), W>(nodes: seq<N>, i: nat, edges: seq<Edge<N, W>>): seq<(N, N)>
    requires i < |nodes|
  {
    if edges == [] then []
    else
      var e := edges[|edges| - 1];
      ViewAt(nodes, i, edges[..|edges| - 1])
      + (if Touches(e, nodes[i]) && Other(e, nodes[i]) !in nodes[..i] then [(nodes[i], Other(e, nodes[i]))] else [])
  }

  /** The pairs yielded while visiting nodes `i` onwards. */
  function ViewFrom<N(==), W>(nodes: seq<N>, i: nat, edges: seq<Edge<N, W>>): seq<(N, N)>
    requires i <= |nodes|
    decreases |nodes| - i
  {
    if i == |nodes| then [] else ViewAt(nodes, i, edges) + ViewFrom(nodes, i + 1, edges)
  }

  /** `graph.edges()`: each edge once, oriented from its earlier node, grouped by that node. */
  function EdgeView<N(==), W>(g: Graph<N, W>): seq<(N, N)> {
    ViewFrom(g.nodes, 0, g.edges)
  }

  /** Index of the earlier of the two ends of `e`. */
  function Low<N(==), W>(nodes: seq<N>, e: Edge<N, W>): nat
    requires e.u in nodes && e.v in nodes
  {
    var p, q := IndexOf(nodes, e.u), IndexOf(nodes, e.v);
    if p <= q then p else q
  }

  predicate EndsIn<N(==), W>(nodes: seq<N>, edges: seq<Edge<N, W>>) {
    forall k :: 0 <= k < |edges| ==> edges[k].u in nodes && edges[k].v in nodes
  }

  /** Node `i` reports an edge exactly when it is the edge's earlier end. */
  lemma ReportedAt<N, W>(nodes: seq<N>, i: nat, e: Edge<N, W>)
    requires Distinct(nodes) && i < |nodes| && e.u in nodes && e.v in nodes
    ensures (Touches(e, nodes[i]) && Other(e, nodes[i]) !in nodes[..i]) <==> Low(nodes, e) == i
  {
    var p, q := IndexOf(nodes, e.u), IndexOf(nodes, e.v);
    IndexOfDistinct(nodes, i);
    if Touches(e, nodes[i]) {
      var o := Other(e, nodes[i]);
      var r := IndexOf(nodes, o);
      assert o in nodes[..i] <==> r < i by {
        if o in nodes[..i] {
          var m :| 0 <= m < i && nodes[..i][m] == o;
          IndexOfDistinct(nodes, m);
        }
        if r < i {
          assert nodes[..i][r] == o;
        }
      }
    }
  }

  lemma {:induction false} ViewAtSize<N, W>(nodes: seq<N>, i: nat, edges: seq<Edge<N, W>>, e: Edge<N, W>)
    requires Distinct(nodes) && i < |nodes| && e.u in nodes && e.v in nodes
    ensures |ViewAt(nodes, i, edges + [e])| == |ViewAt(nodes, i, edges)| + if Low(nodes, e) == i then 1 else 0
  {
    assert (edges + [e])[..|edges|] == edges;
    ReportedAt(nodes, i, e);
  }

  lemma {:induction false} ViewFromSize<N, W>(nodes: seq<N>, i: nat, edges: seq<Edge<N, W>>, e: Edge<N, W>)
    requires Distinct(nodes) && i <= |nodes| && e.u in nodes && e.v in nodes
    ensures |ViewFrom(nodes, i, edges + [e])| == |ViewFrom(nodes, i, edges)| + if Low(nodes, e) >= i then 1 else 0
    decreases |nodes| - i
  {
    if i < |nodes| {
      ViewAtSize(nodes, i, edges, e);
      ViewFromSize(nodes, i + 1, edges, e);
    }
  }

  lemma {:induction false} ViewFromEmpty<N, W>(nodes: seq<N>, i: nat)
    requires i <= |nodes|
    ensures ViewFrom<N, W>(nodes, i, []) == []
    decreases |nodes| - i
  {
    if i < |nodes| {
      ViewFromEmpty<N, W>(nodes, i + 1);
    }
  }

  /** `graph.edges()` reports as many pairs as there are edges. */
  lemma {:induction false} EdgeViewSize<N, W>(nodes: seq<N>, edges: seq<Edge<N, W>>)
    requires Distinct(nodes) && EndsIn(nodes, edges)
    ensures |ViewFrom(nodes, 0, edges)| == |edges|
  {
    if edges == [] {
      ViewFromEmpty<N, W>(nodes, 0);
    } else {
      var init, e := edges[..|edges| - 1], edges[|edges| - 1];
      assert edges == init + [e];
      EdgeViewSize(nodes, init);
      ViewFromSize(nodes, 0, init, e);
    }
  }

  lemma {:induction false} ViewAtJoins<N, W>(nodes: seq<N>, i: nat, edges: seq<Edge<N, W>>, p: nat)
    requires i < |nodes| && p < |ViewAt(nodes, i, edges)|
    ensures exists k :: 0 <= k < |edges| && Joins(edges[k], ViewAt(nodes, i, edges)[p].0, ViewAt(nodes, i, edges)[p].1)
  {
    var init := edges[..|edges| - 1];
    var front := ViewAt(nodes, i, init);
    if p < |front| {
      ViewAtJoins(nodes, i, init, p);
      var k :| 0 <= k < |init| && Joins(init[k], front[p].0, front[p].1);
      assert edges[k] == init[k];
    } else {
      assert Joins(edges[|edges| - 1], ViewAt(nodes, i, edges)[p].0, ViewAt(nodes, i, edges)[p].1);
    }
  }

  lemma {:induction false} ViewFromJoins<N, W>(nodes: seq<N>, i: nat, edges: seq<Edge<N, W>>, p: nat)
    requires i <= |nodes| && p < |ViewFrom(nodes, i, edges)|
    ensures exists k :: 0 <= k < |edges| && Joins(edges[k], ViewFrom(nodes, i, edges)[p].0, ViewFrom(nodes, i, edges)[p].1)
    decreases |nodes| - i
  {
    var here := ViewAt(nodes, i, edges);
    if p < |here| {
      ViewAtJoins(nodes, i, edges, p);
    } else {
      ViewFromJoins(nodes, i + 1, edges, p - |here|);
    }
  }

  /** Some pair of `view` is joined by `e`. */
  predicate Covers<N(==), W>(view: seq<(N, N)>, e: Edge<N, W>) {
    exists p :: 0 <= p < |view| && Joins(e, view[p].0, view[p].1)
  }

  /** Node `i` reports every edge it is the earlier end of. */
  lemma {:induction false} ViewAtHas<N, W>(nodes: seq<N>, i: nat, edges: seq<Edge<N, W>>, k: nat)
    requires i < |nodes| && k < |edges|
    requires Touches(edges[k], nodes[i]) && Other(edges[k], nodes[i]) !in nodes[..i]
    ensures Covers(ViewAt(nodes, i, edges), edges[k])
  {
    var init := edges[..|edges| - 1];
    var front := ViewAt(nodes, i, init);
    var view := ViewAt(nodes, i, edges);
    if k == |edges| - 1 {
      assert Joins(edges[k], view[|view| - 1].0, view[|view| - 1].1);
    } else {
      assert init[k] == edges[k];
      ViewAtHas(nodes, i, init, k);
      var p :| 0 <= p < |front| && Joins(edges[k], front[p].0, front[p].1);
      assert view[p] == front[p];
    }
  }

  lemma {:induction false} ViewFromHas<N, W>(nodes: seq<N>, i: nat, edges: seq<Edge<N, W>>, k: nat, j: nat)
    requires i <= j < |nodes| && k < |edges|
    requires Touches(edges[k], nodes[j]) && Other(edges[k], nodes[j]) !in nodes[..j]
    ensures Covers(ViewFrom(nodes, i, edges), edges[k])
    decreases j - i
  {
    var here := ViewAt(nodes, i, edges);
    var view := ViewFrom(nodes, i, edges);
    if j == i {
      ViewAtHas(nodes, i, edges, k);
      var p :| 0 <= p < |here| && Joins(edges[k], here[p].0, here[p].1);
      assert view[p] == here[p];
    } else {
      var rest := ViewFrom(nodes, i + 1, edges);
      ViewFromHas(nodes, i + 1, edges, k, j);
      var p :| 0 <= p < |rest| && Joins(edges[k], rest[p].0, rest[p].1);
      assert view[|here| + p] == rest[p];
    }
  }

  /**
   * `graph.edges()` reports exactly as many pairs as there are edges, every edge of the
   * graph is among them, and each reported pair is joined by an edge.
   */
  lemma EdgeViewIsEdges<N, W>(g: Graph<N, W>)
    requires Valid(g)
    ensures |EdgeView(g)| == |g.edges|
    ensures forall k :: 0 <= k < |g.edges| ==> Covers(EdgeView(g), g.edges[k])
    ensures forall p :: 0 <= p < |EdgeView(g)| ==>
              exists k :: 0 <= k < |g.edges| && Joins(g.edges[k], EdgeView(g)[p].0, EdgeView(g)[p].1)
  {
    EdgeViewSize(g.nodes, g.edges);
    forall k | 0 <= k < |g.edges|
      ensures Covers(EdgeView(g), g.edges[k])
    {
      var e := g.edges[k];
      var j := Low(g.nodes, e);
      ReportedAt(g.nodes, j, e);
      ViewFromHas(g.nodes, 0, g.edges, k, j);
    }
    forall p | 0 <= p < |EdgeView(g)|
      ensures exists k :: 0 <= k < |g.edges| && Joins(g.edges[k], EdgeView(g)[p].0, EdgeView(g)[p].1)
    {
      ViewFromJoins(g.nodes, 0, g.edges, p);
    }
  }
}
