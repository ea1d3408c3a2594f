/** Flow graphs, walks through them, and the orders the scheduler is measured against. */
module Graph {
  import opened Common

  type NodeId = string
  type EdgeId = string

  datatype Edge = Edge(
    id: EdgeId, from: NodeId, fromPort: string, to: NodeId, toPort: string, condition: Option<string>)

  datatype Graph = Graph(nodes: seq<NodeId>, edges: seq<Edge>)

  /** Outgoing edges of a node, in the order the graph lists them. */
  function OutEdges(edges: seq<Edge>, n: NodeId): (r: seq<Edge>)
    ensures forall e :: e in r <==> e in edges && e.from == n
  {
    if edges == [] then []
    else
      var rest := OutEdges(edges[..|edges| - 1], n);
      var last := edges[|edges| - 1];
      assert forall e :: e in edges <==> e in edges[..|edges| - 1] || e == last;
      if last.from == n then rest + [last] else rest
  }

  /** Incoming edges of a node, in the order the graph lists them. */
  function InEdges(edges: seq<Edge>, n: NodeId): (r: seq<Edge>)
    ensures forall e :: e in r <==> e in edges && e.to == n
  {
    if edges == [] then []
    else
      var rest := InEdges(edges[..|edges| - 1], n);
      var last := edges[|edges| - 1];
      assert forall e :: e in edges <==> e in edges[..|edges| - 1] || e == last;
      if last.to == n then rest + [last] else rest
  }

  lemma EdgesSnoc(edges: seq<Edge>, e: Edge, n: NodeId)
    ensures OutEdges(edges + [e], n) == OutEdges(edges, n) + if e.from == n then [e] else []
    ensures InEdges(edges + [e], n) == InEdges(edges, n) + if e.to == n then [e] else []
  {
    assert (edges + [e])[..|edges|] == edges;
  }

  ghost predicate DistinctIds(edges: seq<Edge>) {
    forall i, j :: 0 <= i < j < |edges| ==> edges[i].id != edges[j].id
  }

  lemma {:induction false} OutEdgesDistinctIds(edges: seq<Edge>, n: NodeId)
    requires DistinctIds(edges)
    ensures DistinctIds(OutEdges(edges, n))
  {
    if edges != [] {
      var front, last := edges[..|edges| - 1], edges[|edges| - 1];
      OutEdgesDistinctIds(front, n);
      forall e | e in OutEdges(front, n) ensures e.id != last.id {
        assert e in front;
      }
    }
  }

  ghost predicate EndpointsExist(g: Graph) {
    forall e :: e in g.edges ==> e.from in g.nodes && e.to in g.nodes
  }

  /** What the validator is for: a graph the executor accepts. */
  ghost predicate ValidGraph(g: Graph) {
    g.nodes != [] && Distinct(g.nodes) && EndpointsExist(g) && DistinctIds(g.edges)
  }

  // ---- Walks ----

  /** `p` is a walk of consecutive edges of `g` from `a` to `b`. */
  ghost predicate Walk(g: Graph, a: NodeId, p: seq<Edge>, b: NodeId)
    decreases p
  {
    if p == [] then a == b
    else p[0] in g.edges && p[0].from == a && Walk(g, p[0].to, p[1..], b)
  }

  ghost predicate Reach(g: Graph, a: NodeId, b: NodeId) {
    exists p :: Walk(g, a, p, b)
  }

  lemma {:induction false} WalkAppend(g: Graph, a: NodeId, p: seq<Edge>, b: NodeId, q: seq<Edge>, c: NodeId)
    requires Walk(g, a, p, b) && Walk(g, b, q, c)
    ensures Walk(g, a, p + q, c)
    decreases p
  {
    if p == [] {
      assert p + q == q;
    } else {
      WalkAppend(g, p[0].to, p[1..], b, q, c);
      assert (p + q)[1..] == p[1..] + q;
    }
  }

  lemma ReachSelf(g: Graph, a: NodeId)
    ensures Reach(g, a, a)
  {
    assert Walk(g, a, [], a);
  }

  lemma WalkPrepend(g: Graph, e: Edge, p: seq<Edge>, b: NodeId)
    requires e in g.edges && Walk(g, e.to, p, b)
    ensures Walk(g, e.from, [e] + p, b)
  {
  }

  lemma ReachStep(g: Graph, a: NodeId, e: Edge)
    requires Reach(g, a, e.from) && e in g.edges
    ensures Reach(g, a, e.to)
  {
    var p :| Walk(g, a, p, e.from);
    WalkPrepend(g, e, [], e.to);
    WalkAppend(g, a, p, e.from, [e] + [], e.to);
  }

  lemma ReachTrans(g: Graph, a: NodeId, b: NodeId, c: NodeId)
    requires Reach(g, a, b) && Reach(g, b, c)
    ensures Reach(g, a, c)
  {
    var p :| Walk(g, a, p, b);
    var q :| Walk(g, b, q, c);
    WalkAppend(g, a, p, b, q, c);
  }

  lemma {:induction false} WalkStaysClosed(g: Graph, s: set<NodeId>, a: NodeId, p: seq<Edge>, b: NodeId)
    requires forall e :: e in g.edges && e.from in s ==> e.to in s
    requires a in s && Walk(g, a, p, b)
    ensures b in s
    decreases p
  {
    if p != [] {
      WalkStaysClosed(g, s, p[0].to, p[1..], b);
    }
  }

  lemma {:induction false} LastEdge(g: Graph, a: NodeId, p: seq<Edge>, b: NodeId)
    requires Walk(g, a, p, b) && p != []
    ensures exists e :: e in g.edges && e.to == b
    decreases p
  {
    if p[1..] != [] {
      LastEdge(g, p[0].to, p[1..], b);
    }
  }

  /** A non-empty walk back to where it started. */
  ghost predicate Cycle(g: Graph, a: NodeId, p: seq<Edge>) {
    p != [] && Walk(g, a, p, a)
  }

  ghost predicate Acyclic(g: Graph) {
    forall a, p :: !Cycle(g, a, p)
  }

  /** Every node exactly once, every edge pointing forward. */
  ghost predicate TopologicalOrder(g: Graph, order: seq<NodeId>) {
    && Distinct(order)
    && (forall n :: n in g.nodes <==> n in order)
    && (forall i, e :: 0 <= i < |order| && e in g.edges && e.to == order[i] ==> e.from in order[..i])
  }
}
