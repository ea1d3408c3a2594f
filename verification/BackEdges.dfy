/** Back-edge detection, entry nodes and graph validation. */
module BackEdges {
  import opened Common
  import opened Graph
  import opened DepthFirst

  // ---- find_back_edges ----

  function StartNodes(g: Graph, nodes: seq<NodeId>): (r: seq<NodeId>)
    ensures forall n :: n in r <==> n in nodes && forall e :: e in g.edges ==> e.to != n
  {
    if nodes == [] then []
    else
      var rest := StartNodes(g, nodes[1..]);
      if exists e :: e in g.edges && e.to == nodes[0] then rest else [nodes[0]] + rest
  }

  /** No edge enters the node. */
  ghost predicate Unentered(g: Graph, n: NodeId) { forall e :: e in g.edges ==> e.to != n }

  /** Where the search starts: nodes with no incoming edge, or everywhere when there is none. */
  function Roots(g: Graph): (r: seq<NodeId>)
    ensures r == [] <==> g.nodes == []
    ensures forall n :: n in r ==> n in g.nodes
    ensures (exists n :: n in g.nodes && Unentered(g, n)) ==> forall n :: n in r <==> n in g.nodes && Unentered(g, n)
    ensures (forall n :: n in g.nodes ==> !Unentered(g, n)) ==> r == g.nodes
  {
    var starts := StartNodes(g, g.nodes);
    assert starts != [] ==> starts[0] in starts && Unentered(g, starts[0]);
    assert forall n :: n in g.nodes && Unentered(g, n) ==> n in starts;
    if starts == [] then g.nodes else starts
  }

  /** One element stands before another in a list. */
  ghost predicate Before(nodes: seq<NodeId>, a: NodeId, b: NodeId) {
    exists p, q :: 0 <= p < q < |nodes| && nodes[p] == a && nodes[q] == b
  }

  ghost predicate InOrderOf(nodes: seq<NodeId>, r: seq<NodeId>) {
    forall i, j :: 0 <= i < j < |r| ==> Before(nodes, r[i], r[j])
  }

  /** The search starts are taken in the order of the graph's nodes. */
  lemma RootsInOrder(g: Graph)
    ensures InOrderOf(g.nodes, Roots(g))
  {
    StartNodesInOrder(g, g.nodes);
  }

  lemma {:induction false} StartNodesInOrder(g: Graph, nodes: seq<NodeId>)
    ensures InOrderOf(nodes, StartNodes(g, nodes))
  {
    if nodes != [] {
      var rest := StartNodes(g, nodes[1..]);
      StartNodesInOrder(g, nodes[1..]);
      assert forall a, b :: Before(nodes[1..], a, b) ==> Before(nodes, a, b) by {
        forall a, b | Before(nodes[1..], a, b) ensures Before(nodes, a, b) {
          var p, q :| 0 <= p < q < |nodes| - 1 && nodes[1..][p] == a && nodes[1..][q] == b;
          assert nodes[p + 1] == a && nodes[q + 1] == b;
        }
      }
      forall b | b in rest ensures Before(nodes, nodes[0], b) {
        var q :| 0 <= q < |nodes| - 1 && nodes[1..][q] == b;
        assert nodes[0] == nodes[0] && nodes[q + 1] == b;
      }
    }
  }

  /** The id names an edge out of a listed node whose target leads back to that node. */
  ghost predicate ClosesCycle(g: Graph, visited: set<NodeId>, id: EdgeId) {
    exists e :: e in g.edges && e.id == id && e.from in visited && Reach(g, e.to, e.from)
  }

  /** The graph without its marked edges. */
  function Unmarked(g: Graph, back: set<EdgeId>): (r: Graph)
    ensures r.nodes == g.nodes && forall e :: e in r.edges <==> e in g.edges && e.id !in back
  {
    Graph(g.nodes, UnmarkedOf(g.edges, back))
  }

  function UnmarkedOf(edges: seq<Edge>, back: set<EdgeId>): (r: seq<Edge>)
    ensures forall e :: e in r <==> e in edges && e.id !in back
  {
    if edges == [] then []
    else if edges[0].id in back then UnmarkedOf(edges[1..], back)
    else [edges[0]] + UnmarkedOf(edges[1..], back)
  }

  /** With distinct ids: an edge is marked exactly when it does not go down the order, unmarked
      edges alone reach everything from the roots, and they close a cycle with each marked edge. */
  ghost predicate Precise(g: Graph, back: set<EdgeId>, order: seq<NodeId>) {
    && (forall i, e :: 0 <= i < |order| && e in g.edges && e.from == order[i] ==>
      (e.id in back <==> e.to !in order[..i]))
    && (forall n :: n in order ==> ReachedFrom(Unmarked(g, back), Roots(g), n))
    && (forall e :: MarkedEdge(g, back, e) ==> e.from in order && Reach(Unmarked(g, back), e.to, e.from))
  }

  /** A finished search: `order` is a certificate for everything claimed about `back`. */
  ghost predicate Analysed(g: Graph, back: set<EdgeId>, order: seq<NodeId>) {
    && Distinct(order)
    && (forall n :: n in order <==> ReachedFrom(g, Roots(g), n))
    && Sorted(g, order, back)
    && (forall id :: id in back ==> ClosesCycle(g, Elements(order), id))
    && (DistinctIds(g.edges) ==> Precise(g, back, order))
  }

  ghost function VisitAll(g: Graph, m: Marks, roots: seq<NodeId>): Marks
    requires forall r :: r in roots ==> r in g.nodes
  {
    if roots == [] then m else Visit(g, VisitAll(g, m, roots[..|roots| - 1]), roots[|roots| - 1])
  }

  /** What the search marks. */
  ghost function BackEdgesOf(g: Graph): set<EdgeId> {
    VisitAll(g, Marks({}, {}, {}), Roots(g)).back
  }

  method FindBackEdges(g: Graph) returns (back: set<EdgeId>, ghost order: seq<NodeId>)
    ensures Analysed(g, back, order) && CutsEveryCycle(g, back)
    ensures back == BackEdgesOf(g)
  {
    var outgoing := BuildOutgoing(g);
    var roots := Roots(g);
    ghost var p := Progress({}, {}, {}, [], []);
    NothingSearched(g);
    hide Search, Universe, Reach, CutsEveryCycle, Exact, Searched, DistinctIds, Roots, Visit, RootsSearched;
    hide Analysed, OutEdges;
    var visited: set<NodeId>, stack: set<NodeId> := {}, {};
    ghost var tree: seq<Edge> := [];
    back, order := {}, [];
    for i := 0 to |roots|
      invariant RootsSearched(g, roots, i, Progress(visited, stack, back, order, tree))
      invariant Marks(visited, stack, back) == VisitAll(g, Marks({}, {}, {}), roots[..i])
    {
      p := Progress(visited, stack, back, order, tree);
      assert roots[i] in roots && roots[..i + 1][..i] == roots[..i];
      assert roots[i] in Universe(g) by { NodesInUniverse(g, roots[i]); }
      assert RootReady(g, p) by { BetweenRoots(g, roots, i, p); }
      visited, stack, back, order, tree := Dfs(g, outgoing, roots[i], visited, stack, back, order, tree);
      OneMoreRoot(g, roots, i, p, Progress(visited, stack, back, order, tree));
    }
    assert roots[..|roots|] == roots;
    SearchComplete(g, Progress(visited, stack, back, order, tree));
    EveryCycleIsCut(g, back, order);
  }

  ghost predicate RootReady(g: Graph, p: Progress) { Search(g, p) && p.stack == {} }

  lemma BetweenRoots(g: Graph, roots: seq<NodeId>, i: nat, p: Progress)
    requires RootsSearched(g, roots, i, p)
    ensures RootReady(g, p)
  {
  }

  lemma NodesInUniverse(g: Graph, n: NodeId)
    requires n in g.nodes
    ensures n in Universe(g)
  {
  }

  ghost predicate ReachedFrom(g: Graph, roots: seq<NodeId>, n: NodeId) {
    exists r :: r in roots && Reach(g, r, n)
  }

  /** The search has been through the first `i` roots. */
  ghost predicate RootsSearched(g: Graph, roots: seq<NodeId>, i: nat, p: Progress) {
    && p.stack == {} && Search(g, p) && (DistinctIds(g.edges) ==> Exact(g, p))
    && (forall j :: 0 <= j < i && j < |roots| ==> roots[j] in p.visited)
    && (forall v :: v in p.visited ==> ReachedFrom(Along(p.tree), roots, v))
  }

  lemma NothingSearched(g: Graph)
    ensures RootsSearched(g, Roots(g), 0, Progress({}, {}, {}, [], []))
  {
  }

  lemma OneMoreRoot(g: Graph, roots: seq<NodeId>, i: nat, p: Progress, p': Progress)
    requires RootsSearched(g, roots, i, p) && i < |roots| && Searched(g, p, roots[i], p')
    ensures RootsSearched(g, roots, i + 1, p')
  {
    hide Search, Exact, OnlyNew, Reach, DistinctIds, ReachedFrom;
    forall v | v in p'.visited ensures ReachedFrom(Along(p'.tree), roots, v) {
      if v in p.visited {
        ReachedMono(Along(p.tree), Along(p'.tree), roots, v);
      } else {
        RootReaches(Along(p'.tree), roots, i, v);
      }
    }
  }

  lemma ReachedMono(g: Graph, g': Graph, roots: seq<NodeId>, n: NodeId)
    requires ReachedFrom(g, roots, n) && forall e :: e in g.edges ==> e in g'.edges
    ensures ReachedFrom(g', roots, n)
  {
    hide Reach;
    var r :| r in roots && Reach(g, r, n);
    ReachMono(g, g', r, n);
  }

  lemma RootReaches(g: Graph, roots: seq<NodeId>, i: nat, n: NodeId)
    requires i < |roots| && Reach(g, roots[i], n)
    ensures ReachedFrom(g, roots, n)
  {
  }

  lemma SearchComplete(g: Graph, p: Progress)
    requires RootsSearched(g, Roots(g), |Roots(g)|, p)
    ensures Analysed(g, p.back, p.order)
  {
    hide Reach, Exact, Roots, Precise, DistinctIds, Sorted, ReachedFrom, ClosesCycle, Closes, Universe;
    assert Elements(p.order) == p.visited;
    forall n ensures n in p.visited <==> ReachedFrom(g, Roots(g), n) {
      VisitedIffReached(g, Roots(g), p, n);
    }
    forall id | id in p.back ensures ClosesCycle(g, p.visited, id) {
      ClosesInGraph(g, p, id);
    }
    if DistinctIds(g.edges) {
      SearchPrecise(g, p);
    }
  }

  lemma VisitedIffReached(g: Graph, roots: seq<NodeId>, p: Progress, n: NodeId)
    requires RootsSearched(g, roots, |roots|, p)
    ensures n in p.visited <==> ReachedFrom(g, roots, n)
  {
    hide Reach, Exact, DistinctIds, Sorted, Closes, Universe, Distinct, Elements;
    if n in p.visited {
      ReachedMono(Along(p.tree), g, roots, n);
    }
    if r :| r in roots && Reach(g, r, n) {
      ReachStays(g, p.visited, r, n);
    }
  }

  lemma ClosesInGraph(g: Graph, p: Progress, id: EdgeId)
    requires Closes(g, p, id) && forall e :: e in p.tree ==> e in g.edges
    ensures ClosesCycle(g, p.visited, id)
  {
    hide Reach;
    var e :| e in g.edges && e.id == id && e.from in p.visited && Reach(Along(p.tree), e.to, e.from);
    ReachMono(Along(p.tree), g, e.to, e.from);
  }

  lemma ReachStays(g: Graph, s: set<NodeId>, a: NodeId, b: NodeId)
    requires forall e :: e in g.edges && e.from in s ==> e.to in s
    requires a in s && Reach(g, a, b)
    ensures b in s
  {
    var w :| Walk(g, a, w, b);
    WalkStaysClosed(g, s, a, w, b);
  }

  lemma SearchPrecise(g: Graph, p: Progress)
    requires RootsSearched(g, Roots(g), |Roots(g)|, p) && DistinctIds(g.edges)
    ensures Precise(g, p.back, p.order)
  {
    hide Reach, Roots, ReachedFrom, Unmarked, Sorted, OnlyRises, DistinctIds;
    var tree, unmarked := Along(p.tree), Unmarked(g, p.back);
    assert Elements(p.order) == p.visited;
    forall n | n in p.order ensures ReachedFrom(unmarked, Roots(g), n) {
      ReachedMono(tree, unmarked, Roots(g), n);
    }
    forall e | MarkedEdge(g, p.back, e) ensures e.from in p.order && Reach(unmarked, e.to, e.from) {
      var x :| x in g.edges && x.id == e.id && x.from in p.visited && Reach(tree, x.to, x.from);
      SameId(g.edges, x, e);
      ReachMono(tree, unmarked, e.to, e.from);
    }
    SortedExactly(g, p.back, p.order);
  }

  lemma SameId(edges: seq<Edge>, e: Edge, e': Edge)
    requires DistinctIds(edges) && e in edges && e' in edges && e.id == e'.id
    ensures e == e'
  {
  }

  lemma SortedExactly(g: Graph, back: set<EdgeId>, order: seq<NodeId>)
    requires Sorted(g, order, back) && OnlyRises(g, order, back)
    ensures forall i, e :: 0 <= i < |order| && e in g.edges && e.from == order[i] ==>
      (e.id in back <==> e.to !in order[..i])
  {
    forall i, e | 0 <= i < |order| && e in g.edges && e.from == order[i] ensures e.id in back <==> e.to !in order[..i] {
      assert e.id in back ==> MarkedEdge(g, back, e);
    }
  }

  // ---- What the result means ----

  /** A walk that avoids the back-edges only goes down the order. */
  lemma {:induction false} WalkDescends(g: Graph, back: set<EdgeId>, order: seq<NodeId>, i: nat, p: seq<Edge>,
                                        b: NodeId)
    requires Sorted(g, order, back)
    requires i < |order| && p != [] && Walk(g, order[i], p, b)
    requires forall e :: e in p ==> e.id !in back
    ensures b in order[..i]
    decreases p
  {
    assert p[0] in p;
    var j :| 0 <= j < i && order[j] == p[0].to;
    if p[1..] != [] {
      WalkDescends(g, back, order, j, p[1..], b);
      assert order[..i][..j] == order[..j];
    }
  }

  ghost predicate CutBy(p: seq<Edge>, back: set<EdgeId>) {
    exists e :: e in p && e.id in back
  }

  /** Every cycle the roots can reach contains one of the returned edges. */
  ghost predicate CutsEveryCycle(g: Graph, back: set<EdgeId>) {
    forall a, p :: ReachedFrom(g, Roots(g), a) && Cycle(g, a, p) ==> CutBy(p, back)
  }

  lemma EveryCycleIsCut(g: Graph, back: set<EdgeId>, order: seq<NodeId>)
    requires Analysed(g, back, order)
    ensures CutsEveryCycle(g, back)
  {
    forall a, p | ReachedFrom(g, Roots(g), a) && Cycle(g, a, p) ensures CutBy(p, back) {
      var i :| 0 <= i < |order| && order[i] == a;
      if !CutBy(p, back) {
        WalkDescends(g, back, order, i, p, a);
      }
    }
  }

  /** The set is empty exactly when no cycle is reachable from the roots. */
  lemma NoBackEdgesIffNoReachableCycle(g: Graph, back: set<EdgeId>, order: seq<NodeId>)
    requires Analysed(g, back, order)
    ensures back == {} <==> forall a, p :: a in order ==> !Cycle(g, a, p)
  {
    EveryCycleIsCut(g, back, order);
    if id :| id in back {
      var e :| e in g.edges && e.id == id && e.from in Elements(order) && Reach(g, e.to, e.from);
      var p :| Walk(g, e.to, p, e.from);
      WalkPrepend(g, e, p, e.from);
      assert Cycle(g, e.from, [e] + p);
    }
  }

  ghost predicate HasPredecessor(g: Graph, u: set<NodeId>, n: NodeId) {
    exists e :: e in g.edges && e.to == n && e.from in u
  }

  /** Walking backwards for ever inside a finite set closes a cycle. */
  lemma {:induction false} BackwardsForeverCloses(g: Graph, u: set<NodeId>, a: NodeId, seen: set<NodeId>)
    requires forall n {:trigger HasPredecessor(g, u, n)} :: n in u ==> HasPredecessor(g, u, n)
    requires a in seen && seen <= u && forall x :: x in seen ==> Reach(g, a, x)
    ensures !Acyclic(g)
    decreases u - seen
  {
    assert HasPredecessor(g, u, a);
    var e :| e in g.edges && e.to == a && e.from in u;
    if e.from in seen {
      var q :| Walk(g, a, q, e.from);
      WalkPrepend(g, e, q, e.from);
      assert Cycle(g, e.from, [e] + q);
    } else {
      ReachSelf(g, e.from);
      forall x | x in seen ensures Reach(g, e.from, x) {
        var q :| Walk(g, a, q, x);
        WalkPrepend(g, e, q, x);
      }
      BackwardsForeverCloses(g, u, e.from, seen + {e.from});
    }
  }

  /** A node the search misses has a predecessor the search misses. */
  lemma MissedPredecessor(g: Graph, back: set<EdgeId>, order: seq<NodeId>, n: NodeId)
    requires Analysed(g, back, order) && n in g.nodes && n !in order
    ensures exists e :: e in g.edges && e.to == n && e.from !in order
  {
    ReachSelf(g, n);
    assert n !in Roots(g);
    var e :| e in g.edges && e.to == n;
    if e.from in order {
      var r :| r in Roots(g) && Reach(g, r, e.from);
      ReachStep(g, r, e);
    }
  }

  lemma AcyclicAllVisited(g: Graph, back: set<EdgeId>, order: seq<NodeId>)
    requires Analysed(g, back, order) && EndpointsExist(g) && Acyclic(g)
    ensures forall n :: n in g.nodes ==> n in order
  {
    hide Acyclic, Analysed, Reach;
    var u := set n | n in g.nodes && n !in order;
    forall n | n in u ensures HasPredecessor(g, u, n) {
      MissedPredecessor(g, back, order, n);
    }
    forall n | n in g.nodes ensures n in order {
      if n in u {
        ReachSelf(g, n);
        BackwardsForeverCloses(g, u, n, {n});
      }
    }
  }

  /** In an acyclic graph the search returns nothing, and the order it leaves
      the nodes in, reversed, is a topological order of the whole graph. */
  lemma AcyclicSorts(g: Graph, back: set<EdgeId>, order: seq<NodeId>)
    requires Analysed(g, back, order) && EndpointsExist(g) && Acyclic(g)
    ensures back == {}
    ensures TopologicalOrder(g, Reversed(order))
  {
    hide Precise, ReachedFrom, ClosesCycle, DistinctIds, Cycle, Roots;
    NoBackEdgesIffNoReachableCycle(g, back, order);
    AcyclicAllVisited(g, back, order);
    var rev := Reversed(order);
    forall n ensures n in g.nodes <==> n in rev {
      if n in order {
        var k :| 0 <= k < |order| && order[k] == n;
        assert rev[|order| - 1 - k] == n;
        VisitedInGraph(g, back, order, n);
      }
    }
    forall i, e | 0 <= i < |rev| && e in g.edges && e.to == rev[i] ensures e.from in rev[..i] {
      var k :| 0 <= k < |order| && order[k] == e.from;
      assert order[|order| - 1 - i] == e.to && e.to in order[..k];
      assert rev[|order| - 1 - k] == e.from;
    }
  }

  // ---- Entry nodes ----

  /** Nodes with no incoming edge other than back-edges, in graph order. */
  function EntryNodes(g: Graph, back: set<EdgeId>): (r: seq<NodeId>)
    ensures forall n :: n in r <==> n in g.nodes && forall e :: e in g.edges && e.to == n ==> e.id in back
  {
    EntryNodesIn(g, back, g.nodes)
  }

  function EntryNodesIn(g: Graph, back: set<EdgeId>, nodes: seq<NodeId>): (r: seq<NodeId>)
    ensures forall n :: n in r <==> n in nodes && forall e :: e in g.edges && e.to == n ==> e.id in back
  {
    if nodes == [] then []
    else
      var rest := EntryNodesIn(g, back, nodes[1..]);
      if exists e :: e in g.edges && e.to == nodes[0] && e.id !in back then rest else [nodes[0]] + rest
  }

  /** The executor always has a node to start with. */
  lemma EntryNodesExist(g: Graph, back: set<EdgeId>, order: seq<NodeId>)
    requires g.nodes != [] && EndpointsExist(g) && Analysed(g, back, order)
    ensures EntryNodes(g, back) != []
  {
    var starts := StartNodes(g, g.nodes);
    if starts != [] {
      assert starts[0] in EntryNodes(g, back);
    } else {
      forall n | n in g.nodes ensures n in order {
        ReachSelf(g, n);
      }
      assert g.nodes[0] in order;
      LastLeftIsEntry(g, back, order);
    }
  }

  /** If every node was visited, the one left last has only back-edges coming in. */
  lemma LastLeftIsEntry(g: Graph, back: set<EdgeId>, order: seq<NodeId>)
    requires EndpointsExist(g) && Analysed(g, back, order) && order != []
    requires forall n :: n in g.nodes ==> n in order
    ensures order[|order| - 1] in EntryNodes(g, back)
  {
    var last := order[|order| - 1];
    VisitedInGraph(g, back, order, last);
    forall e | e in g.edges && e.to == last ensures e.id in back {
      var i :| 0 <= i < |order| && order[i] == e.from;
      assert last !in order[..i];
    }
  }

  lemma VisitedInGraph(g: Graph, back: set<EdgeId>, order: seq<NodeId>, n: NodeId)
    requires EndpointsExist(g) && Analysed(g, back, order) && n in order
    ensures n in g.nodes
  {
    var r :| r in Roots(g) && Reach(g, r, n);
    var p :| Walk(g, r, p, n);
    WalkStaysClosed(g, Elements(g.nodes), r, p, n);
  }

  // ---- validate_graph ----

  datatype Problem =
    | DuplicateNode(node: NodeId)
    | UnknownSource(edge: EdgeId, node: NodeId)
    | UnknownTarget(edge: EdgeId, node: NodeId)
    | DuplicateEdge(edge: EdgeId)
    | NoEntryNodes
    | NoNodes

  ghost predicate RepeatedNode(nodes: seq<NodeId>, n: NodeId) {
    exists i, j :: 0 <= i < j < |nodes| && nodes[i] == n && nodes[j] == n
  }

  ghost predicate RepeatedEdge(edges: seq<Edge>, id: EdgeId) {
    exists i, j :: 0 <= i < j < |edges| && edges[i].id == id && edges[j].id == id
  }

  /** The problem names an end of an edge that is not a node. */
  ghost predicate Dangling(nodes: seq<NodeId>, edges: seq<Edge>, p: Problem) {
    exists e :: e in edges &&
                ((p == UnknownSource(e.id, e.from) && e.from !in nodes) ||
                 (p == UnknownTarget(e.id, e.to) && e.to !in nodes))
  }

  ghost predicate Applies(g: Graph, p: Problem) {
    match p
    case DuplicateNode(n) => RepeatedNode(g.nodes, n)
    case UnknownSource(_, _) => Dangling(g.nodes, g.edges, p)
    case UnknownTarget(_, _) => Dangling(g.nodes, g.edges, p)
    case DuplicateEdge(id) => RepeatedEdge(g.edges, id)
    case NoEntryNodes => EntryNodes(g, BackEdgesOf(g)) == [] && g.nodes != []
    case NoNodes => g.nodes == []
  }

  /** Reports exactly the problems a graph has, and so accepts exactly the valid graphs: the "no
      entry nodes" complaint is never the deciding one. */
  method ValidateGraph(g: Graph) returns (errors: seq<Problem>)
    ensures errors == [] <==> ValidGraph(g)
    ensures forall p :: p in errors <==> Applies(g, p)
    ensures EndpointsExist(g) ==> NoEntryNodes !in errors
    ensures NoNodes in errors <==> g.nodes == []
    ensures forall e, n :: UnknownSource(e, n) in errors ==> n !in g.nodes
    ensures forall e, n :: UnknownTarget(e, n) in errors ==> n !in g.nodes
  {
    hide Analysed, CutsEveryCycle, BackEdgesOf, EntryNodes, EndpointsExist, Distinct, DistinctIds;
    hide RepeatedNode, RepeatedEdge, Dangling;
    var duplicateNodes := FindDuplicateNodes(g);
    var dangling := FindDangling(g);
    var duplicateEdges := FindDuplicateEdges(g);
    errors := duplicateNodes + dangling + duplicateEdges;
    var back, order := FindBackEdges(g);
    if EndpointsExist(g) && g.nodes != [] {
      EntryNodesExist(g, back, order);
    }
    if EntryNodes(g, back) == [] && g.nodes != [] {
      errors := errors + [NoEntryNodes];
    }
    if g.nodes == [] {
      errors := errors + [NoNodes];
    }
  }

  lemma RepeatedNodeSnoc(nodes: seq<NodeId>, x: NodeId, n: NodeId)
    ensures RepeatedNode(nodes + [x], n) <==> RepeatedNode(nodes, n) || (x == n && n in nodes)
  {
    var longer := nodes + [x];
    if RepeatedNode(nodes, n) {
      var i, j :| 0 <= i < j < |nodes| && nodes[i] == n && nodes[j] == n;
      assert longer[i] == n && longer[j] == n;
    }
    if x == n && n in nodes {
      var i :| 0 <= i < |nodes| && nodes[i] == n;
      assert longer[i] == n && longer[|nodes|] == n;
    }
  }

  lemma RepeatedIffNotDistinct(g: Graph)
    ensures Distinct(g.nodes) <==> forall n :: !RepeatedNode(g.nodes, n)
    ensures DistinctIds(g.edges) <==> forall id :: !RepeatedEdge(g.edges, id)
  {
    if !Distinct(g.nodes) {
      var i, j :| 0 <= i < j < |g.nodes| && g.nodes[i] == g.nodes[j];
      assert RepeatedNode(g.nodes, g.nodes[i]);
    }
    if !DistinctIds(g.edges) {
      var i, j :| 0 <= i < j < |g.edges| && g.edges[i].id == g.edges[j].id;
      assert RepeatedEdge(g.edges, g.edges[i].id);
    }
  }

  lemma RepeatedEdgeSnoc(edges: seq<Edge>, x: Edge, id: EdgeId)
    ensures RepeatedEdge(edges + [x], id) <==>
      RepeatedEdge(edges, id) || (x.id == id && exists e :: e in edges && e.id == id)
  {
    var longer := edges + [x];
    if RepeatedEdge(edges, id) {
      var i, j :| 0 <= i < j < |edges| && edges[i].id == id && edges[j].id == id;
      assert longer[i].id == id && longer[j].id == id;
    }
    if e :| e in edges && e.id == id && x.id == id {
      var i :| 0 <= i < |edges| && edges[i] == e;
      assert longer[i].id == id && longer[|edges|].id == id;
    }
  }

  method FindDuplicateNodes(g: Graph) returns (errors: seq<Problem>)
    ensures errors == [] <==> Distinct(g.nodes)
    ensures forall p :: p in errors <==> p.DuplicateNode? && RepeatedNode(g.nodes, p.node)
  {
    hide RepeatedNode, Distinct;
    errors := [];
    var seen: set<NodeId> := {};
    NothingRepeated();
    for i := 0 to |g.nodes|
      invariant forall n :: n in seen <==> n in g.nodes[..i]
      invariant forall p :: p in errors <==> p.DuplicateNode? && RepeatedNode(g.nodes[..i], p.node)
    {
      assert g.nodes[..i + 1] == g.nodes[..i] + [g.nodes[i]];
      forall n ensures RepeatedNode(g.nodes[..i + 1], n) <==>
        RepeatedNode(g.nodes[..i], n) || (g.nodes[i] == n && n in g.nodes[..i])
      {
        RepeatedNodeSnoc(g.nodes[..i], g.nodes[i], n);
      }
      if g.nodes[i] in seen {
        errors := errors + [DuplicateNode(g.nodes[i])];
      }
      seen := seen + {g.nodes[i]};
    }
    assert g.nodes[..|g.nodes|] == g.nodes;
    RepeatedIffNotDistinct(g);
    assert forall n :: RepeatedNode(g.nodes, n) <==> DuplicateNode(n) in errors;
    assert errors != [] ==> errors[0] in errors;
  }

  lemma NothingRepeated()
    ensures forall n :: !RepeatedNode([], n)
    ensures forall id :: !RepeatedEdge([], id)
    ensures forall nodes, p :: !Dangling(nodes, [], p)
  {
  }

  method FindDuplicateEdges(g: Graph) returns (errors: seq<Problem>)
    ensures errors == [] <==> DistinctIds(g.edges)
    ensures forall p :: p in errors <==> p.DuplicateEdge? && RepeatedEdge(g.edges, p.edge)
  {
    hide RepeatedEdge, DistinctIds;
    errors := [];
    var seen: set<EdgeId> := {};
    NothingRepeated();
    for i := 0 to |g.edges|
      invariant forall id :: id in seen <==> exists e :: e in g.edges[..i] && e.id == id
      invariant forall p :: p in errors <==> p.DuplicateEdge? && RepeatedEdge(g.edges[..i], p.edge)
    {
      assert g.edges[..i + 1] == g.edges[..i] + [g.edges[i]];
      forall id ensures RepeatedEdge(g.edges[..i + 1], id) <==>
        RepeatedEdge(g.edges[..i], id) || (g.edges[i].id == id && id in seen)
      {
        RepeatedEdgeSnoc(g.edges[..i], g.edges[i], id);
      }
      assert forall e :: e in g.edges[..i + 1] <==> e in g.edges[..i] || e == g.edges[i];
      if g.edges[i].id in seen {
        errors := errors + [DuplicateEdge(g.edges[i].id)];
      }
      seen := seen + {g.edges[i].id};
    }
    assert g.edges[..|g.edges|] == g.edges;
    RepeatedIffNotDistinct(g);
    assert forall id :: RepeatedEdge(g.edges, id) <==> DuplicateEdge(id) in errors;
    assert errors != [] ==> errors[0] in errors;
  }

  lemma DanglingSnoc(nodes: seq<NodeId>, edges: seq<Edge>, e: Edge, p: Problem)
    ensures Dangling(nodes, edges + [e], p) <==>
            Dangling(nodes, edges, p) || (p == UnknownSource(e.id, e.from) && e.from !in nodes)
            || (p == UnknownTarget(e.id, e.to) && e.to !in nodes)
  {
    assert forall x :: x in edges + [e] <==> x in edges || x == e;
  }

  lemma DanglingIffMissing(g: Graph)
    ensures EndpointsExist(g) <==> forall p :: !Dangling(g.nodes, g.edges, p)
  {
    if e :| e in g.edges && (e.from !in g.nodes || e.to !in g.nodes) {
      assert Dangling(g.nodes, g.edges, UnknownSource(e.id, e.from)) ||
        Dangling(g.nodes, g.edges, UnknownTarget(e.id, e.to));
    }
  }

  method FindDangling(g: Graph) returns (errors: seq<Problem>)
    ensures errors == [] <==> EndpointsExist(g)
    ensures forall p :: p in errors <==> Dangling(g.nodes, g.edges, p)
    ensures forall p :: p in errors ==> (p.UnknownSource? || p.UnknownTarget?) && p.node !in g.nodes
  {
    hide Dangling, EndpointsExist;
    errors := [];
    NothingRepeated();
    for i := 0 to |g.edges|
      invariant forall p :: p in errors <==> Dangling(g.nodes, g.edges[..i], p)
      invariant forall p :: p in errors ==> (p.UnknownSource? || p.UnknownTarget?) && p.node !in g.nodes
    {
      var e := g.edges[i];
      assert g.edges[..i + 1] == g.edges[..i] + [e];
      forall p ensures Dangling(g.nodes, g.edges[..i + 1], p) <==>
        Dangling(g.nodes, g.edges[..i], p) || (p == UnknownSource(e.id, e.from) && e.from !in g.nodes)
        || (p == UnknownTarget(e.id, e.to) && e.to !in g.nodes)
      {
        DanglingSnoc(g.nodes, g.edges[..i], e, p);
      }
      ghost var before := errors;
      if e.from !in g.nodes {
        errors := errors + [UnknownSource(e.id, e.from)];
      }
      if e.to !in g.nodes {
        errors := errors + [UnknownTarget(e.id, e.to)];
      }
      assert forall p :: p in errors <==>
        p in before || (p == UnknownSource(e.id, e.from) && e.from !in g.nodes)
        || (p == UnknownTarget(e.id, e.to) && e.to !in g.nodes);
    }
    assert g.edges[..|g.edges|] == g.edges;
    DanglingIffMissing(g);
    assert errors != [] ==> errors[0] in errors;
  }
}
