/** The depth-first search for back-edges: as a function, as the code runs it, and what it keeps. */
module DepthFirst {
  import opened Common
  import opened Graph

  // ---- The search as a function ----

  /** Every id a search can be asked about. */
  ghost function Universe(g: Graph): set<NodeId> {
    Elements(g.nodes) + (set e | e in g.edges :: e.from) + (set e | e in g.edges :: e.to)
  }

  datatype Marks = Marks(visited: set<NodeId>, stack: set<NodeId>, back: set<EdgeId>)

  ghost function Visit(g: Graph, m: Marks, node: NodeId): (r: Marks)
    requires node in Universe(g)
    ensures m.visited <= r.visited
    decreases Universe(g) - m.visited, 0
  {
    if node in m.visited then m
    else
      assert node in (Universe(g) - m.visited) - (Universe(g) - (m.visited + {node}));
      var left := VisitEdges(g, Marks(m.visited + {node}, m.stack + {node}, m.back), OutEdges(g.edges, node));
      left.(stack := left.stack - {node})
  }

  /** The edges of the node on top of the stack, one by one. */
  ghost function VisitEdges(g: Graph, m: Marks, edges: seq<Edge>): (r: Marks)
    requires forall e :: e in edges ==> e in g.edges
    ensures m.visited <= r.visited
    decreases Universe(g) - m.visited, |edges| + 1
  {
    if edges == [] then m
    else
      var e := edges[0];
      var next :=
        if e.to in m.stack then m.(back := m.back + {e.id})
        else if e.to !in m.visited then Visit(g, m, e.to)
        else m;
      VisitEdges(g, next, edges[1..])
  }

  // ---- What the search maintains ----

  /** The sets of the code, with the nodes in the order they were left and the edges along which
      nodes were first reached. */
  datatype Progress = Progress(
    visited: set<NodeId>, stack: set<NodeId>, back: set<EdgeId>, order: seq<NodeId>, tree: seq<Edge>)

  /** The edges of `tree` as a graph. */
  function Along(tree: seq<Edge>): Graph { Graph([], tree) }

  /** Every edge out of a listed node that is not a back-edge points to a node listed earlier:
      deleting the back-edges sorts the graph. */
  ghost predicate Sorted(g: Graph, order: seq<NodeId>, back: set<EdgeId>) {
    forall i, e :: 0 <= i < |order| && e in g.edges && e.from == order[i] ==>
      e.id in back || e.to in order[..i]
  }

  /** The id names an edge out of a visited node whose target leads back to that node. */
  ghost predicate Closes(g: Graph, p: Progress, id: EdgeId) {
    exists e :: e in g.edges && e.id == id && e.from in p.visited && Reach(Along(p.tree), e.to, e.from)
  }

  /** The state of the search. */
  ghost predicate Search(g: Graph, p: Progress) {
    && p.stack <= p.visited <= Universe(g)
    && Distinct(p.order)
    && Elements(p.order) == p.visited - p.stack
    && Sorted(g, p.order, p.back)
    && (forall e :: e in g.edges && e.from in p.visited - p.stack ==> e.to in p.visited)
    && (forall e :: e in p.tree ==> e in g.edges && e.from in p.visited)
    && (forall id :: id in p.back ==> Closes(g, p, id))
  }

  /** An edge that has been marked. */
  ghost predicate MarkedEdge(g: Graph, back: set<EdgeId>, e: Edge) { e in g.edges && e.id in back }

  /** No edge that goes down the order is marked. */
  ghost predicate OnlyRises(g: Graph, order: seq<NodeId>, back: set<EdgeId>) {
    forall i, e :: 0 <= i < |order| && MarkedEdge(g, back, e) && e.from == order[i] ==> e.to !in order[..i]
  }

  /** Nothing is marked without need: marked edges point into the stack while their source is on
      it, never down the order, and no edge of the tree is marked. */
  ghost predicate Exact(g: Graph, p: Progress) {
    && (forall e :: MarkedEdge(g, p.back, e) ==> e.from in p.visited && (e.from in p.stack ==> e.to in p.stack))
    && OnlyRises(g, p.order, p.back)
    && (forall e :: e in p.tree ==> e.id !in p.back)
  }

  /** What was marked or added to the tree since `p0` belongs to nodes not visited then. */
  ghost predicate OnlyNew(g: Graph, p0: Progress, p: Progress) {
    && (forall e :: MarkedEdge(g, p.back, e) && e.id !in p0.back ==> e.from !in p0.visited)
    && (forall e :: e in p.tree && e !in p0.tree ==> e.from !in p0.visited)
  }

  /** `p` continues `p0`. */
  ghost predicate Extends(p0: Progress, p: Progress) {
    p0.visited <= p.visited && p0.back <= p.back && forall e :: e in p0.tree ==> e in p.tree
  }

  // ---- Between two edges of the current node ----

  /** An edge of the current node that the loop has dealt with. */
  ghost predicate Handled(p: Progress, e: Edge) {
    e.to in p.visited && (e.id in p.back || e.to in p.visited - p.stack)
  }

  /** In the call for `node` that began at `p0`, `done` being the edges dealt with. */
  ghost predicate InNode(g: Graph, p0: Progress, node: NodeId, p: Progress, done: seq<Edge>) {
    && node !in p0.visited && node in Universe(g) && p0.stack <= p0.visited
    && p.stack == p0.stack + {node} && node in p.visited && Extends(p0, p)
    && Search(g, p)
    && (forall s :: s in p0.stack ==> Reach(Along(p.tree), s, node))
    && (forall v :: v in p.visited - p0.visited ==> Reach(Along(p.tree), node, v))
    && (forall e :: e in done ==> Handled(p, e))
  }

  ghost predicate ExactInNode(g: Graph, p0: Progress, node: NodeId, p: Progress, done: seq<Edge>) {
    && Exact(g, p0) && Exact(g, p) && OnlyNew(g, p0, p)
    && (forall e :: MarkedEdge(g, p.back, e) && e.from == node ==> e in done)
    && (forall e :: e in p.tree && e.from == node ==> e in done)
  }

  // ---- Walks along a growing tree ----

  lemma {:induction false} WalkMono(g: Graph, g': Graph, a: NodeId, w: seq<Edge>, b: NodeId)
    requires Walk(g, a, w, b) && forall e :: e in g.edges ==> e in g'.edges
    ensures Walk(g', a, w, b)
    decreases w
  {
    if w != [] {
      WalkMono(g, g', w[0].to, w[1..], b);
    }
  }

  lemma ReachMono(g: Graph, g': Graph, a: NodeId, b: NodeId)
    requires Reach(g, a, b) && forall e :: e in g.edges ==> e in g'.edges
    ensures Reach(g', a, b)
  {
    var w :| Walk(g, a, w, b);
    WalkMono(g, g', a, w, b);
  }

  lemma ClosesMono(g: Graph, p: Progress, p': Progress, id: EdgeId)
    requires Closes(g, p, id) && p.visited <= p'.visited && forall e :: e in p.tree ==> e in p'.tree
    ensures Closes(g, p', id)
  {
    var e :| e in g.edges && e.id == id && e.from in p.visited && Reach(Along(p.tree), e.to, e.from);
    ReachMono(Along(p.tree), Along(p'.tree), e.to, e.from);
  }

  // ---- The steps ----

  function Entered(p: Progress, node: NodeId): Progress {
    p.(visited := p.visited + {node}, stack := p.stack + {node})
  }

  lemma EnterNode(g: Graph, p: Progress, node: NodeId)
    requires Search(g, p) && node !in p.visited && node in Universe(g)
    requires forall s :: s in p.stack ==> Reach(Along(p.tree), s, node)
    ensures InNode(g, p, node, Entered(p, node), [])
  {
    hide Reach;
    ReachSelf(Along(p.tree), node);
    assert p.visited + {node} - (p.stack + {node}) == p.visited - p.stack;
    forall id | id in p.back ensures Closes(g, Entered(p, node), id) {
      ClosesMono(g, p, Entered(p, node), id);
    }
  }

  lemma EnterExact(g: Graph, p: Progress, node: NodeId)
    requires Search(g, p) && Exact(g, p) && node !in p.visited
    ensures ExactInNode(g, p, node, Entered(p, node), [])
  {
  }

  function Closed(p: Progress, e: Edge): Progress { p.(back := p.back + {e.id}) }

  lemma CloseCycle(g: Graph, p0: Progress, node: NodeId, p: Progress, done: seq<Edge>, e: Edge)
    requires InNode(g, p0, node, p, done)
    requires e in g.edges && e.from == node && e.to in p.stack
    ensures InNode(g, p0, node, Closed(p, e), done + [e])
  {
    hide Reach;
    var p' := Closed(p, e);
    ReachSelf(Along(p.tree), node);
    assert Closes(g, p', e.id);
    forall id | id in p.back ensures Closes(g, p', id) {
      ClosesMono(g, p, p', id);
    }
  }

  lemma CloseExact(g: Graph, p0: Progress, node: NodeId, p: Progress, done: seq<Edge>, e: Edge)
    requires InNode(g, p0, node, p, done) && ExactInNode(g, p0, node, p, done) && DistinctIds(g.edges)
    requires e in g.edges && e.from == node && e.to in p.stack && e !in done
    ensures ExactInNode(g, p0, node, Closed(p, e), done + [e])
  {
    hide Reach;
    var p' := Closed(p, e);
    forall x | MarkedEdge(g, p'.back, x) ensures MarkedEdge(g, p.back, x) || x == e {}
    assert node !in p.order by { assert node !in Elements(p.order); }
    forall x | x in p.tree ensures x.id != e.id {}
  }

  lemma AlreadyLeft(g: Graph, p0: Progress, node: NodeId, p: Progress, done: seq<Edge>, e: Edge)
    requires InNode(g, p0, node, p, done)
    requires e.to in p.visited && e.to !in p.stack
    ensures InNode(g, p0, node, p, done + [e])
    ensures ExactInNode(g, p0, node, p, done) ==> ExactInNode(g, p0, node, p, done + [e])
  {
  }

  function Descending(p: Progress, e: Edge): Progress { p.(tree := p.tree + [e]) }

  lemma DescendPre(g: Graph, p0: Progress, node: NodeId, p: Progress, done: seq<Edge>, e: Edge)
    requires InNode(g, p0, node, p, done)
    requires e in g.edges && e.from == node
    ensures Search(g, Descending(p, e)) && e.to in Universe(g)
    ensures forall s :: s in p.stack ==> Reach(Along(p.tree + [e]), s, e.to)
    ensures Universe(g) - p.visited < Universe(g) - p0.visited
  {
    hide Reach;
    var p' := Descending(p, e);
    ReachSelf(Along(p.tree), node);
    forall s | s in p.stack ensures Reach(Along(p'.tree), s, e.to) {
      ReachMono(Along(p.tree), Along(p'.tree), s, node);
      ReachStep(Along(p'.tree), s, e);
    }
    forall id | id in p.back ensures Closes(g, p', id) {
      ClosesMono(g, p, p', id);
    }
    assert node in (Universe(g) - p0.visited) - (Universe(g) - p.visited);
  }

  lemma DescendExactPre(g: Graph, p0: Progress, node: NodeId, p: Progress, done: seq<Edge>, e: Edge)
    requires ExactInNode(g, p0, node, p, done) && e in g.edges && e.from == node && e !in done
    ensures Exact(g, Descending(p, e))
  {
    assert !MarkedEdge(g, p.back, e);
  }

  /** What a call of the search promises of the progress `p` it was given. */
  ghost predicate Searched(g: Graph, p: Progress, node: NodeId, p': Progress) {
    && Search(g, p') && p'.stack == p.stack && Extends(p, p') && node in p'.visited
    && (forall v :: v in p'.visited - p.visited ==> Reach(Along(p'.tree), node, v))
    && (DistinctIds(g.edges) && Exact(g, p) ==> Exact(g, p') && OnlyNew(g, p, p'))
  }

  lemma Descend(g: Graph, p0: Progress, node: NodeId, p: Progress, done: seq<Edge>, e: Edge, p': Progress)
    requires InNode(g, p0, node, p, done)
    requires e in g.edges && e.from == node && e.to !in p.visited
    requires Searched(g, Descending(p, e), e.to, p')
    ensures InNode(g, p0, node, p', done + [e])
  {
    hide Reach, Exact, OnlyNew, DistinctIds;
    var t, t' := Along(p.tree), Along(p'.tree);
    assert e in Descending(p, e).tree;
    ReachSelf(t', node);
    ReachStep(t', node, e);
    forall v | v in p'.visited - p0.visited ensures Reach(t', node, v) {
      if v in p.visited {
        ReachMono(t, t', node, v);
      } else {
        ReachTrans(t', node, e.to, v);
      }
    }
    forall s | s in p0.stack ensures Reach(t', s, node) {
      ReachMono(t, t', s, node);
    }
    forall x | x in done + [e] ensures Handled(p', x) {
      if x in done {
        assert Handled(p, x);
        assert x.to in p.visited - p.stack ==> x.to in p'.visited - p'.stack;
      } else {
        assert e.to !in p.stack;
      }
    }
  }

  lemma DescendExact(g: Graph, p0: Progress, node: NodeId, p: Progress, done: seq<Edge>, e: Edge, p': Progress)
    requires InNode(g, p0, node, p, done) && ExactInNode(g, p0, node, p, done)
    requires e.from == node && Exact(g, p') && OnlyNew(g, Descending(p, e), p')
    ensures ExactInNode(g, p0, node, p', done + [e])
  {
    hide Reach, Search, Exact;
    forall x | MarkedEdge(g, p'.back, x) && x.id !in p0.back ensures x.from !in p0.visited {
      assert MarkedEdge(g, p.back, x) || x.from !in p.visited;
    }
    forall x | MarkedEdge(g, p'.back, x) && x.from == node ensures x in done + [e] {
      assert MarkedEdge(g, p.back, x) || x.from !in p.visited;
    }
    forall x | x in p'.tree && x !in p0.tree ensures x.from !in p0.visited {
      assert x in p.tree || x == e || x.from !in p.visited;
    }
  }

  function Left(p0: Progress, node: NodeId, p: Progress): Progress {
    p.(stack := p0.stack, order := p.order + [node])
  }

  /** All edges dealt with: the node is left and joins the order. */
  lemma LeaveNode(g: Graph, p0: Progress, node: NodeId, p: Progress)
    requires InNode(g, p0, node, p, OutEdges(g.edges, node))
    ensures Search(g, Left(p0, node, p))
  {
    hide Reach;
    var p' := Left(p0, node, p);
    assert node !in p.order by { assert node !in Elements(p.order); }
    forall i, e | 0 <= i < |p'.order| && e in g.edges && e.from == p'.order[i]
      ensures e.id in p.back || e.to in p'.order[..i]
    {
      if i < |p.order| {
        assert p'.order[..i] == p.order[..i];
      } else {
        assert p'.order[..i] == p.order && e in OutEdges(g.edges, node);
        assert e.to in p.visited - p.stack ==> e.to in Elements(p.order);
      }
    }
    assert Elements(p'.order) == p'.visited - p'.stack;
    forall id | id in p.back ensures Closes(g, p', id) {
      ClosesMono(g, p, p', id);
    }
  }

  lemma LeaveExact(g: Graph, p0: Progress, node: NodeId, p: Progress)
    requires InNode(g, p0, node, p, OutEdges(g.edges, node)) && ExactInNode(g, p0, node, p, OutEdges(g.edges, node))
    ensures Exact(g, Left(p0, node, p)) && OnlyNew(g, p0, Left(p0, node, p))
  {
    hide Reach, Sorted;
    var p' := Left(p0, node, p);
    forall i, e | 0 <= i < |p'.order| && MarkedEdge(g, p.back, e) && e.from == p'.order[i]
      ensures e.to !in p'.order[..i]
    {
      if i < |p.order| {
        assert p'.order[..i] == p.order[..i];
      } else {
        assert p'.order[..i] == p.order;
        assert e.to !in Elements(p.order);
      }
    }
    forall e | MarkedEdge(g, p.back, e) && e.from in p0.stack ensures e.to in p0.stack {
      assert MarkedEdge(g, p0.back, e);
    }
  }

  // ---- The search as the code runs it ----

  /** Adjacency lists, keyed by source node. */
  method BuildOutgoing(g: Graph) returns (outgoing: map<NodeId, seq<Edge>>)
    ensures forall n :: (if n in outgoing then outgoing[n] else []) == OutEdges(g.edges, n)
  {
    outgoing := map[];
    for i := 0 to |g.edges|
      invariant forall n :: (if n in outgoing then outgoing[n] else []) == OutEdges(g.edges[..i], n)
    {
      var e := g.edges[i];
      assert g.edges[..i + 1][..i] == g.edges[..i];
      var known := if e.from in outgoing then outgoing[e.from] else [];
      outgoing := outgoing[e.from := known + [e]];
    }
    assert g.edges[..|g.edges|] == g.edges;
  }

  /** Everything kept between two edges of the current node. */
  ghost predicate Scanning(g: Graph, p0: Progress, node: NodeId, p: Progress, done: seq<Edge>) {
    && InNode(g, p0, node, p, done)
    && (DistinctIds(g.edges) && Exact(g, p0) ==> ExactInNode(g, p0, node, p, done))
  }

  lemma ScanStart(g: Graph, p: Progress, node: NodeId)
    requires Search(g, p) && node !in p.visited && node in Universe(g)
    requires forall s :: s in p.stack ==> Reach(Along(p.tree), s, node)
    ensures Scanning(g, p, node, Entered(p, node), [])
  {
    hide Search, Reach, Exact, ExactInNode, InNode, DistinctIds;
    EnterNode(g, p, node);
    if Exact(g, p) {
      EnterExact(g, p, node);
    }
  }

  /** An edge to a node on the stack, or to one already left. */
  lemma ScanOver(g: Graph, p0: Progress, node: NodeId, p: Progress, done: seq<Edge>, e: Edge)
    requires Scanning(g, p0, node, p, done) && e in g.edges && e.from == node
    requires DistinctIds(g.edges) ==> e !in done
    ensures e.to in p.stack ==> Scanning(g, p0, node, Closed(p, e), done + [e])
    ensures e.to in p.visited && e.to !in p.stack ==> Scanning(g, p0, node, p, done + [e])
  {
    hide Search, Reach, Exact, ExactInNode, InNode, DistinctIds;
    if e.to in p.stack {
      CloseCycle(g, p0, node, p, done, e);
      if DistinctIds(g.edges) && Exact(g, p0) {
        CloseExact(g, p0, node, p, done, e);
      }
    } else if e.to in p.visited {
      AlreadyLeft(g, p0, node, p, done, e);
    }
  }

  lemma ScanInto(g: Graph, p0: Progress, node: NodeId, p: Progress, done: seq<Edge>, e: Edge)
    requires Scanning(g, p0, node, p, done) && e in g.edges && e.from == node
    requires DistinctIds(g.edges) ==> e !in done
    ensures var p1 := Descending(p, e);
      && Search(g, p1) && e.to in Universe(g) && Universe(g) - p1.visited < Universe(g) - p0.visited
      && (forall s :: s in p1.stack ==> Reach(Along(p1.tree), s, e.to))
      && (DistinctIds(g.edges) && Exact(g, p0) ==> Exact(g, p1))
  {
    hide Search, Reach, Exact, ExactInNode, InNode, DistinctIds, Universe;
    DescendPre(g, p0, node, p, done, e);
    if DistinctIds(g.edges) && Exact(g, p0) {
      DescendExactPre(g, p0, node, p, done, e);
    }
  }

  lemma ScanAfter(g: Graph, p0: Progress, node: NodeId, p: Progress, done: seq<Edge>, e: Edge, p': Progress)
    requires Scanning(g, p0, node, p, done) && e in g.edges && e.from == node && e.to !in p.visited
    requires DistinctIds(g.edges) ==> e !in done
    requires Searched(g, Descending(p, e), e.to, p')
    ensures Scanning(g, p0, node, p', done + [e])
  {
    hide Search, Reach, Exact, ExactInNode, InNode, DistinctIds, OnlyNew;
    Descend(g, p0, node, p, done, e, p');
    if DistinctIds(g.edges) && Exact(g, p0) {
      DescendExactPre(g, p0, node, p, done, e);
      DescendExact(g, p0, node, p, done, e, p');
    }
  }

  lemma ScanEnd(g: Graph, p0: Progress, node: NodeId, p: Progress)
    requires Scanning(g, p0, node, p, OutEdges(g.edges, node))
    ensures Searched(g, p0, node, Left(p0, node, p))
    ensures p.stack - {node} == p0.stack
  {
    LeaveNode(g, p0, node, p);
    hide Search, Reach, Exact, ExactInNode, DistinctIds, OnlyNew;
    if DistinctIds(g.edges) && Exact(g, p0) {
      LeaveExact(g, p0, node, p);
    }
  }

  lemma AlreadyVisited(g: Graph, p: Progress, node: NodeId)
    requires Search(g, p) && node in p.visited
    ensures Searched(g, p, node, p)
  {
  }

  method Dfs(g: Graph, outgoing: map<NodeId, seq<Edge>>, node: NodeId,
             visited0: set<NodeId>, stack0: set<NodeId>, back0: set<EdgeId>, ghost order0: seq<NodeId>,
             ghost tree0: seq<Edge>)
    returns (visited: set<NodeId>, stack: set<NodeId>, back: set<EdgeId>, ghost order: seq<NodeId>,
             ghost tree: seq<Edge>)
    requires forall n :: (if n in outgoing then outgoing[n] else []) == OutEdges(g.edges, n)
    requires Search(g, Progress(visited0, stack0, back0, order0, tree0))
    requires node in Universe(g)
    requires forall s :: s in stack0 ==> Reach(Along(tree0), s, node)
    ensures Searched(g, Progress(visited0, stack0, back0, order0, tree0), node,
                     Progress(visited, stack, back, order, tree))
    ensures Marks(visited, stack, back) == Visit(g, Marks(visited0, stack0, back0), node)
    decreases Universe(g) - visited0
  {
    hide Search, Universe, Reach, Searched, Scanning, Exact, DistinctIds, VisitEdges;
    visited, stack, back, order, tree := visited0, stack0, back0, order0, tree0;
    ghost var p0 := Progress(visited0, stack0, back0, order0, tree0);
    if node in visited {
      AlreadyVisited(g, p0, node);
      return;
    }
    visited, stack := visited + {node}, stack + {node};
    ScanStart(g, p0, node);
    var edges := if node in outgoing then outgoing[node] else [];
    assert edges == OutEdges(g.edges, node);
    for i := 0 to |edges|
      invariant Scanning(g, p0, node, Progress(visited, stack, back, order, tree), edges[..i])
      invariant VisitEdges(g, Marks(visited, stack, back), edges[i..]) ==
                VisitEdges(g, Marks(visited0 + {node}, stack0 + {node}, back0), edges)
    {
      var e := edges[i];
      ghost var p := Progress(visited, stack, back, order, tree);
      assert edges[..i + 1] == edges[..i] + [e];
      NotYetDone(g, node, i);
      VisitNext(g, Marks(visited, stack, back), edges[i..]);
      assert edges[i..][1..] == edges[i + 1..];
      if e.to in stack {
        ScanOver(g, p0, node, p, edges[..i], e);
        back := back + {e.id};
      } else if e.to !in visited {
        ScanInto(g, p0, node, p, edges[..i], e);
        tree := tree + [e];
        visited, stack, back, order, tree := Dfs(g, outgoing, e.to, visited, stack, back, order, tree);
        ScanAfter(g, p0, node, p, edges[..i], e, Progress(visited, stack, back, order, tree));
      } else {
        ScanOver(g, p0, node, p, edges[..i], e);
      }
    }
    assert edges[..|edges|] == edges && edges[|edges|..] == [];
    ScanEnd(g, p0, node, Progress(visited, stack, back, order, tree));
    VisitDone(g, Marks(visited, stack, back));
    stack := stack - {node};
    order := order + [node];
  }

  lemma NotYetDone(g: Graph, node: NodeId, i: nat)
    requires i < |OutEdges(g.edges, node)|
    ensures var edges := OutEdges(g.edges, node); DistinctIds(g.edges) ==> edges[i] !in edges[..i]
    ensures OutEdges(g.edges, node)[i] in g.edges && OutEdges(g.edges, node)[i].from == node
  {
    var edges := OutEdges(g.edges, node);
    assert edges[i] in edges;
    if DistinctIds(g.edges) {
      OutEdgesDistinctIds(g.edges, node);
    }
  }

  lemma VisitNext(g: Graph, m: Marks, edges: seq<Edge>)
    requires edges != [] && forall e :: e in edges ==> e in g.edges
    ensures edges[0].to in m.stack ==>
      VisitEdges(g, m, edges) == VisitEdges(g, m.(back := m.back + {edges[0].id}), edges[1..])
    ensures edges[0].to !in m.stack && edges[0].to !in m.visited ==>
      edges[0].to in Universe(g) && VisitEdges(g, m, edges) == VisitEdges(g, Visit(g, m, edges[0].to), edges[1..])
    ensures edges[0].to !in m.stack && edges[0].to in m.visited ==>
      VisitEdges(g, m, edges) == VisitEdges(g, m, edges[1..])
  {
    assert edges[0] in edges;
  }

  lemma VisitDone(g: Graph, m: Marks)
    ensures VisitEdges(g, m, []) == m
  {
  }
}
