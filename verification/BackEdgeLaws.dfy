/** How many edges of a cycle the search marks, and what the marks do to entry nodes. */
module BackEdgeLaws {
  import opened Common
  import opened Graph
  import opened DepthFirst
  import opened BackEdges

  // ---- A marked edge is the only one on some cycle ----

  function CountMarked(p: seq<Edge>, back: set<EdgeId>): nat {
    if p == [] then 0 else (if p[0].id in back then 1 else 0) + CountMarked(p[1..], back)
  }

  lemma {:induction false} UnmarkedWalk(g: Graph, back: set<EdgeId>, a: NodeId, p: seq<Edge>, b: NodeId)
    requires Walk(Unmarked(g, back), a, p, b)
    ensures Walk(g, a, p, b) && CountMarked(p, back) == 0
    decreases p
  {
    if p != [] {
      UnmarkedWalk(g, back, p[0].to, p[1..], b);
    }
  }

  ghost predicate AloneOnCycle(g: Graph, back: set<EdgeId>, e: Edge) {
    exists p :: Cycle(g, e.from, [e] + p) && CountMarked([e] + p, back) == 1
  }

  /** Every marked edge lies on a cycle on which it is the only marked edge. */
  lemma MarkedAlone(g: Graph, back: set<EdgeId>, order: seq<NodeId>, e: Edge)
    requires Analysed(g, back, order) && DistinctIds(g.edges) && MarkedEdge(g, back, e)
    ensures AloneOnCycle(g, back, e)
  {
    hide Analysed, Unmarked;
    assert Reach(Unmarked(g, back), e.to, e.from) by { MarkedIsClosed(g, back, order, e); }
    var p :| Walk(Unmarked(g, back), e.to, p, e.from);
    UnmarkedWalk(g, back, e.to, p, e.from);
    WalkPrepend(g, e, p, e.from);
    assert ([e] + p)[1..] == p;
  }

  lemma MarkedIsClosed(g: Graph, back: set<EdgeId>, order: seq<NodeId>, e: Edge)
    requires Analysed(g, back, order) && DistinctIds(g.edges) && MarkedEdge(g, back, e)
    ensures e.from in order && Reach(Unmarked(g, back), e.to, e.from)
  {
  }

  // ---- Marks on a cycle are the steps that do not go down the order ----

  ghost predicate GoesDown(order: seq<NodeId>, e: Edge) {
    exists i :: 0 <= i < |order| && order[i] == e.from && e.to in order[..i]
  }

  ghost function CountRises(p: seq<Edge>, order: seq<NodeId>): nat {
    if p == [] then 0 else (if GoesDown(order, p[0]) then 0 else 1) + CountRises(p[1..], order)
  }

  lemma MarkedIffRises(g: Graph, back: set<EdgeId>, order: seq<NodeId>, e: Edge)
    requires Analysed(g, back, order) && DistinctIds(g.edges) && e in g.edges && e.from in order
    ensures e.id in back <==> !GoesDown(order, e)
  {
    hide ReachedFrom, ClosesCycle, Reach, DistinctIds;
    var i :| 0 <= i < |order| && order[i] == e.from;
  }

  lemma {:induction false} MarksAreRises(g: Graph, back: set<EdgeId>, order: seq<NodeId>, a: NodeId, p: seq<Edge>,
                                         b: NodeId)
    requires Analysed(g, back, order) && DistinctIds(g.edges) && a in order && Walk(g, a, p, b)
    ensures CountMarked(p, back) == CountRises(p, order)
    decreases p
  {
    hide Analysed, GoesDown;
    if p != [] {
      MarkedIffRises(g, back, order, p[0]);
      VisitedClosed(g, back, order, p[0]);
      MarksAreRises(g, back, order, p[0].to, p[1..], b);
    }
  }

  lemma VisitedClosed(g: Graph, back: set<EdgeId>, order: seq<NodeId>, e: Edge)
    requires Analysed(g, back, order) && e in g.edges && e.from in order
    ensures e.to in order
  {
    hide Precise, ClosesCycle, Reach, Sorted, Roots;
    var r :| r in Roots(g) && Reach(g, r, e.from);
    ReachStep(g, r, e);
  }

  lemma {:induction false} CutIsMarked(p: seq<Edge>, back: set<EdgeId>)
    ensures CutBy(p, back) <==> CountMarked(p, back) >= 1
  {
    if p != [] {
      CutIsMarked(p[1..], back);
      assert forall e :: e in p <==> e == p[0] || e in p[1..];
    }
  }

  /** A cycle through a visited node contains at least one marked edge, and exactly one if and only
      if exactly one of its edges does not go down the order in which nodes were left. */
  lemma MarksOnCycle(g: Graph, back: set<EdgeId>, order: seq<NodeId>, a: NodeId, p: seq<Edge>)
    requires Analysed(g, back, order) && DistinctIds(g.edges) && a in order && Cycle(g, a, p)
    ensures CountMarked(p, back) >= 1
    ensures CountMarked(p, back) == 1 <==> CountRises(p, order) == 1
  {
    hide Reach, Precise, Sorted, ClosesCycle;
    EveryCycleIsCut(g, back, order);
    CutIsMarked(p, back);
    MarksAreRises(g, back, order, a, p, a);
  }

  // ---- Marks never turn a visited node into an entry node ----

  /** The only visited entry nodes are roots of the search. */
  lemma VisitedEntriesAreRoots(g: Graph, back: set<EdgeId>, order: seq<NodeId>, n: NodeId)
    requires Analysed(g, back, order) && DistinctIds(g.edges) && n in order && n in EntryNodes(g, back)
    ensures n in Roots(g)
  {
    hide Roots, Sorted, ClosesCycle;
    var unmarked := Unmarked(g, back);
    assert ReachedFrom(unmarked, Roots(g), n);
    var r :| r in Roots(g) && Reach(unmarked, r, n);
    var p :| Walk(unmarked, r, p, n);
    if p != [] {
      LastEdge(unmarked, r, p, n);
    }
  }

  // ---- "Exactly one edge per cycle" is false ----

  /** Four nodes: a to b to c to d, back from d to b and from c to a, and a short cut from a to d. */
  ghost predicate ShortCut(g: Graph, a: NodeId, b: NodeId, c: NodeId, d: NodeId, es: seq<Edge>) {
    && Distinct([a, b, c, d]) && |es| == 6 && DistinctIds(es) && g == Graph([a, b, c, d], es)
    && es[0].from == a && es[0].to == b
    && es[1].from == b && es[1].to == c
    && es[2].from == c && es[2].to == d
    && es[3].from == d && es[3].to == b
    && es[4].from == c && es[4].to == a
    && es[5].from == a && es[5].to == d
  }

  lemma {:induction false} OutNone(es: seq<Edge>, n: NodeId)
    requires forall k :: 0 <= k < |es| ==> es[k].from != n
    ensures OutEdges(es, n) == []
  {
    if es != [] {
      OutNone(es[..|es| - 1], n);
    }
  }

  lemma {:induction false} OutOnce(es: seq<Edge>, n: NodeId, i: nat)
    requires i < |es| && es[i].from == n && forall k :: 0 <= k < |es| && k != i ==> es[k].from != n
    ensures OutEdges(es, n) == [es[i]]
  {
    if i == |es| - 1 {
      OutNone(es[..i], n);
    } else {
      OutOnce(es[..|es| - 1], n, i);
    }
  }

  lemma {:induction false} OutTwice(es: seq<Edge>, n: NodeId, i: nat, j: nat)
    requires i < j < |es| && es[i].from == n && es[j].from == n
    requires forall k :: 0 <= k < |es| && k != i && k != j ==> es[k].from != n
    ensures OutEdges(es, n) == [es[i], es[j]]
  {
    if j == |es| - 1 {
      OutOnce(es[..j], n, i);
    } else {
      OutTwice(es[..|es| - 1], n, i, j);
    }
  }

  lemma ShortCutEdges(g: Graph, a: NodeId, b: NodeId, c: NodeId, d: NodeId, es: seq<Edge>)
    requires ShortCut(g, a, b, c, d, es)
    ensures Shape(g, a, b, c, d, es)
  {
    hide OutEdges, DistinctIds;
    var nodes := [a, b, c, d];
    assert nodes[0] == a && nodes[1] == b && nodes[2] == c && nodes[3] == d;
    assert a in g.nodes && b in g.nodes && c in g.nodes && d in g.nodes;
    OutTwice(es, a, 0, 5);
    OutTwice(es, c, 2, 4);
    OutOnce(es, b, 1);
    OutOnce(es, d, 3);
  }

  /** What the search sees of that graph. */
  ghost predicate Shape(g: Graph, a: NodeId, b: NodeId, c: NodeId, d: NodeId, es: seq<Edge>) {
    && |es| == 6 && g.edges == es && {a, b, c, d} <= Universe(g)
    && a != b && a != c && a != d && b != c && b != d && c != d
    && es[0].to == b && es[1].to == c && es[2].to == d && es[3].to == b && es[4].to == a && es[5].to == d
    && OutEdges(es, a) == [es[0], es[5]] && OutEdges(es, b) == [es[1]]
    && OutEdges(es, c) == [es[2], es[4]] && OutEdges(es, d) == [es[3]]
  }

  lemma FromD(g: Graph, a: NodeId, b: NodeId, c: NodeId, d: NodeId, es: seq<Edge>)
    requires Shape(g, a, b, c, d, es)
    ensures Visit(g, Marks({a, b, c}, {a, b, c}, {}), d) == Marks({a, b, c, d}, {a, b, c}, {es[3].id})
  {
    hide OutEdges, VisitEdges, Universe;
    var m := Marks({a, b, c} + {d}, {a, b, c} + {d}, {});
    VisitNext(g, m, [es[3]]);
    VisitDone(g, m.(back := {} + {es[3].id}));
    assert [es[3]][1..] == [];
    assert {a, b, c} + {d} - {d} == {a, b, c};
  }

  lemma FromC(g: Graph, a: NodeId, b: NodeId, c: NodeId, d: NodeId, es: seq<Edge>)
    requires Shape(g, a, b, c, d, es)
    ensures Visit(g, Marks({a, b}, {a, b}, {}), c) == Marks({a, b, c, d}, {a, b}, {es[3].id, es[4].id})
  {
    hide OutEdges, VisitEdges, Universe;
    var m := Marks({a, b} + {c}, {a, b} + {c}, {});
    assert m == Marks({a, b, c}, {a, b, c}, {});
    VisitNext(g, m, [es[2], es[4]]);
    FromD(g, a, b, c, d, es);
    var m' := Marks({a, b, c, d}, {a, b, c}, {es[3].id});
    assert [es[2], es[4]][1..] == [es[4]] && [es[4]][1..] == [];
    VisitNext(g, m', [es[4]]);
    VisitDone(g, m'.(back := {es[3].id} + {es[4].id}));
    assert {a, b, c} - {c} == {a, b};
  }

  lemma FromA(g: Graph, a: NodeId, b: NodeId, c: NodeId, d: NodeId, es: seq<Edge>)
    requires Shape(g, a, b, c, d, es)
    ensures Visit(g, Marks({}, {}, {}), a) == Marks({a, b, c, d}, {}, {es[3].id, es[4].id})
  {
    hide OutEdges, VisitEdges, Universe;
    FromB(g, a, b, c, d, es);
    var m := Marks({} + {a}, {} + {a}, {});
    assert m == Marks({a}, {a}, {});
    VisitNext(g, m, [es[0], es[5]]);
    var m' := Marks({a, b, c, d}, {a}, {es[3].id, es[4].id});
    assert [es[0], es[5]][1..] == [es[5]] && [es[5]][1..] == [];
    VisitNext(g, m', [es[5]]);
    VisitDone(g, m');
  }

  lemma FromB(g: Graph, a: NodeId, b: NodeId, c: NodeId, d: NodeId, es: seq<Edge>)
    requires Shape(g, a, b, c, d, es)
    ensures Visit(g, Marks({a}, {a}, {}), b) == Marks({a, b, c, d}, {a}, {es[3].id, es[4].id})
  {
    hide OutEdges, VisitEdges, Universe;
    FromC(g, a, b, c, d, es);
    var m := Marks({a} + {b}, {a} + {b}, {});
    assert m == Marks({a, b}, {a, b}, {});
    VisitNext(g, m, [es[1]]);
    VisitDone(g, Marks({a, b, c, d}, {a, b}, {es[3].id, es[4].id}));
    assert [es[1]][1..] == [];
    assert {a, b} - {b} == {a};
  }

  lemma {:induction false} AllVisited(g: Graph, m: Marks, roots: seq<NodeId>)
    requires forall r :: r in roots ==> r in g.nodes && r in m.visited
    ensures VisitAll(g, m, roots) == m
  {
    hide Visit;
    if roots != [] {
      AllVisited(g, m, roots[..|roots| - 1]);
      VisitedAlready(g, m, roots[|roots| - 1]);
    }
  }

  lemma VisitedAlready(g: Graph, m: Marks, n: NodeId)
    requires n in Universe(g) && n in m.visited
    ensures Visit(g, m, n) == m
  {
  }

  lemma {:induction false} VisitAllConcat(g: Graph, m: Marks, first: NodeId, rest: seq<NodeId>)
    requires first in g.nodes && forall r :: r in rest ==> r in g.nodes
    ensures VisitAll(g, m, [first] + rest) == VisitAll(g, Visit(g, m, first), rest)
  {
    hide Visit;
    var all := [first] + rest;
    if rest == [] {
      assert all == [first] && all[..0] == [];
      assert VisitAll(g, m, all[..0]) == m;
    } else {
      VisitAllConcat(g, m, first, rest[..|rest| - 1]);
      assert all[..|all| - 1] == [first] + rest[..|rest| - 1];
    }
  }

  /** The search marks two edges of the simple cycle a, d, b, c. */
  lemma TwoMarksOnOneCycle(g: Graph, a: NodeId, b: NodeId, c: NodeId, d: NodeId, es: seq<Edge>)
    requires ShortCut(g, a, b, c, d, es)
    ensures BackEdgesOf(g) == {es[3].id, es[4].id}
    ensures Cycle(g, a, [es[5], es[3], es[1], es[4]])
    ensures CountMarked([es[5], es[3], es[1], es[4]], BackEdgesOf(g)) == 2
  {
    hide DistinctIds, OutEdges, Roots, Shape, Visit, VisitAll, CountMarked, Walk, Distinct;
    ShortCutRoots(g, a, b, c, d, es);
    ShortCutEdges(g, a, b, c, d, es);
    assert a in g.nodes && b in g.nodes && c in g.nodes && d in g.nodes;
    var back := {es[3].id, es[4].id};
    var m := Marks({}, {}, {});
    FromA(g, a, b, c, d, es);
    assert [a, b, c, d] == [a] + [b, c, d];
    VisitAllConcat(g, m, a, [b, c, d]);
    AllVisited(g, Marks({a, b, c, d}, {}, back), [b, c, d]);
    ShortCutCycle(g, a, b, c, d, es);
  }

  lemma ShortCutRoots(g: Graph, a: NodeId, b: NodeId, c: NodeId, d: NodeId, es: seq<Edge>)
    requires ShortCut(g, a, b, c, d, es)
    ensures Roots(g) == [a, b, c, d]
  {
    hide DistinctIds;
    assert es[4] in es && es[0] in es && es[1] in es && es[2] in es;
    if StartNodes(g, g.nodes) != [] {
      assert StartNodes(g, g.nodes)[0] in StartNodes(g, g.nodes);
    }
  }

  lemma ShortCutCycle(g: Graph, a: NodeId, b: NodeId, c: NodeId, d: NodeId, es: seq<Edge>)
    requires ShortCut(g, a, b, c, d, es)
    ensures Cycle(g, a, [es[5], es[3], es[1], es[4]])
    ensures CountMarked([es[5], es[3], es[1], es[4]], {es[3].id, es[4].id}) == 2
  {
    hide CountMarked;
    var p3, p2, p1 := [es[4]], [es[1], es[4]], [es[3], es[1], es[4]];
    var p := [es[5], es[3], es[1], es[4]];
    assert p[1..] == p1 && p1[1..] == p2 && p2[1..] == p3 && p3[1..] == [];
    assert Walk(g, c, p3, a);
    assert Walk(g, b, p2, a);
    assert Walk(g, d, p1, a);
    MarksOfFour(es[5], es[3], es[1], es[4]);
  }

  lemma MarksOfFour(e: Edge, e': Edge, f: Edge, f': Edge)
    requires DistinctIds([e, e', f, f'])
    ensures CountMarked([e, e', f, f'], {e'.id, f'.id}) == 2
  {
    hide CountMarked;
    var back := {e'.id, f'.id};
    var p := [e, e', f, f'];
    assert p[0].id == e.id && p[1].id == e'.id && p[2].id == f.id && p[3].id == f'.id;
    assert p[1..] == [e', f, f'] && [e', f, f'][1..] == [f, f'] && [f, f'][1..] == [f'] && [f'][1..] == [];
    NoneMarked(back);
    MarkedFirst([f'], back);
    MarkedFirst([f, f'], back);
    MarkedFirst([e', f, f'], back);
    MarkedFirst(p, back);
  }

  lemma NoneMarked(back: set<EdgeId>)
    ensures CountMarked([], back) == 0
  {
  }

  lemma MarkedFirst(p: seq<Edge>, back: set<EdgeId>)
    requires p != []
    ensures CountMarked(p, back) == (if p[0].id in back then 1 else 0) + CountMarked(p[1..], back)
  {
  }
}
