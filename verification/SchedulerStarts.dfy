/** What one step starts, and with what input, told by the fields of the state and the values alone. */
module SchedulerStarts {
  import opened Common
  import opened Graph
  import BackEdges
  import Lexer
  import Expression
  import opened Scheduler
  import opened SchedulerBooks
  import opened SchedulerBounds

  // ---- Values on edges ----

  /** The named port of an output, or the output itself when it has no such port. */
  function Carried(output: Json, port: string): Json {
    if output.Object? && port in output.fields then output.fields[port] else output
  }

  /** An edge without a condition always holds; a condition must evaluate to true. */
  predicate Holds(e: Edge, output: Json) {
    e.condition.None? || Expression.Evaluate(e.condition.value, output) == Lexer.Ok(true)
  }

  lemma CarriedIsValue(output: Json, port: string)
    ensures EdgeValue(output, port) == Carried(output, port)
  {
  }

  lemma HoldsIsCondition(e: Edge, output: Json)
    ensures Condition(e, output) <==> Holds(e, output)
  {
    hide Expression.Evaluate;
  }

  // ---- Inputs ----

  /** Edge `e` is the last of `edges` to bring a value to this port. */
  ghost predicate LastOn(edges: seq<Edge>, outputs: map<NodeId, Json>, port: string, e: Edge) {
    exists i :: 0 <= i < |edges| && edges[i] == e && Brings(e, outputs, port) &&
                forall j :: i < j < |edges| ==> !Brings(edges[j], outputs, port)
  }

  predicate Brings(e: Edge, outputs: map<NodeId, Json>, port: string) { e.toPort == port && e.from in outputs }

  ghost predicate Brought(edges: seq<Edge>, outputs: map<NodeId, Json>, port: string) {
    exists e :: e in edges && Brings(e, outputs, port)
  }

  /** Each port holds what the last edge into it carries. */
  ghost predicate Gathers(edges: seq<Edge>, outputs: map<NodeId, Json>, fields: map<string, Json>) {
    && (forall p :: p in fields <==> Brought(edges, outputs, p))
    && (forall p, e :: LastOn(edges, outputs, p, e) ==>
      p in fields && fields[p] == Carried(outputs[e.from], e.fromPort))
  }

  /** A node's input: the value of its only port, or all ports as an object. */
  ghost predicate InputIs(c: Config, outputs: map<NodeId, Json>, n: NodeId, input: Json) {
    exists fields ::
      && Gathers(In(c, n), outputs, fields)
      && (if |fields| == 1 then exists p :: p in fields && fields[p] == input else input == Object(fields))
  }

  lemma LastOnSnoc(edges: seq<Edge>, last: Edge, outputs: map<NodeId, Json>, p: string, e: Edge)
    ensures LastOn(edges + [last], outputs, p, e) <==>
            if Brings(last, outputs, p) then e == last else LastOn(edges, outputs, p, e)
  {
    var longer := edges + [last];
    assert longer[|edges|] == last && forall j :: 0 <= j < |edges| ==> longer[j] == edges[j];
    if Brings(last, outputs, p) && e == last {
      assert longer[|edges|] == e;
    }
    if !Brings(last, outputs, p) && LastOn(edges, outputs, p, e) {
      var i :| 0 <= i < |edges| && edges[i] == e && Brings(e, outputs, p) &&
               forall j :: i < j < |edges| ==> !Brings(edges[j], outputs, p);
      assert longer[i] == e;
    }
  }

  lemma {:induction false} MergeGathers(edges: seq<Edge>, outputs: map<NodeId, Json>)
    ensures Gathers(edges, outputs, Merge(edges, outputs))
  {
    hide EdgeValue, Gathers;
    if edges == [] {
      NothingGathered(outputs);
    } else {
      var front, last := edges[..|edges| - 1], edges[|edges| - 1];
      MergeGathers(front, outputs);
      assert edges == front + [last];
      GathersSnoc(front, last, outputs, Merge(front, outputs));
    }
  }

  lemma GathersSnoc(front: seq<Edge>, last: Edge, outputs: map<NodeId, Json>, fields: map<string, Json>)
    requires Gathers(front, outputs, fields)
    ensures Gathers(front + [last], outputs,
                    if last.from in outputs then fields[last.toPort := EdgeValue(outputs[last.from], last.fromPort)]
                    else fields)
  {
    hide EdgeValue, Carried, LastOn, Brought;
    if last.from in outputs {
      CarriedIsValue(outputs[last.from], last.fromPort);
    }
    forall p ensures Brought(front + [last], outputs, p) <==> Brought(front, outputs, p) || Brings(last, outputs, p) {
      BroughtSnoc(front, last, outputs, p);
    }
    forall p, e ensures LastOn(front + [last], outputs, p, e) <==>
      if Brings(last, outputs, p) then e == last else LastOn(front, outputs, p, e)
    {
      LastOnSnoc(front, last, outputs, p, e);
    }
  }

  lemma BroughtSnoc(front: seq<Edge>, last: Edge, outputs: map<NodeId, Json>, p: string)
    ensures Brought(front + [last], outputs, p) <==> Brought(front, outputs, p) || Brings(last, outputs, p)
  {
    assert forall e :: e in front + [last] <==> e in front || e == last;
  }

  lemma NothingGathered(outputs: map<NodeId, Json>)
    ensures Gathers([], outputs, map[])
  {
  }

  /** A task started as a whole gets at each port the value of the last source on it. */
  lemma ResolvedInput(c: Config, outputs: map<NodeId, Json>, n: NodeId)
    ensures InputIs(c, outputs, n, ResolveInputs(c, outputs, n))
  {
    hide Gathers, Merge, In;
    MergeGathers(In(c, n), outputs);
    var fields := Merge(In(c, n), outputs);
    if |fields| == 1 {
      assert ResolveInputs(c, outputs, n) in fields.Values;
    }
  }

  // ---- Which nodes a finished node starts ----

  /** The edge holds and has a traversal left. */
  predicate Open(c: Config, s: State, v: Json, e: Edge) {
    Holds(e, v) && (if e.id in s.counts then s.counts[e.id] else 0) < c.maxTraversals
  }

  ghost predicate Wakes(c: Config, s: State, n: NodeId, v: Json, e: Edge) {
    e in c.graph.edges && e.from == n && Open(c, s, v, e)
  }

  lemma OpenIsPasses(c: Config, s: State, v: Json, e: Edge)
    ensures Open(c, s, v, e) <==> Passes(c, s.counts, v, e)
  {
    hide Condition, Holds;
    HoldsIsCondition(e, v);
  }

  /** Nothing of the node is under way; and it has run before, or it has not failed, all its forward
      sources are done, and one of them completed with an output that an edge of it holds of. */
  ghost predicate MayStart(c: Config, s: State, x: NodeId) {
    && x !in s.running && x !in s.fan
    && (x in s.completed ||
        (&& x !in s.failed
         && (forall e :: e in c.graph.edges && e.to == x && e.id !in c.back ==>
           e.from in s.completed || e.from in s.failed)
         && (exists e :: e in c.graph.edges && e.to == x && e.id !in c.back && HoldsOfSource(s, e))))
  }

  ghost predicate HoldsOfSource(s: State, e: Edge) {
    e.from in s.completed && e.from in s.outputs && Holds(e, s.outputs[e.from])
  }

  ghost predicate Woken(c: Config, s: State, n: NodeId, v: Json, x: NodeId) {
    MayStart(c, s, x) && exists e :: Wakes(c, s, n, v, e) && e.to == x
  }

  lemma WakesIsPasses(c: Config, s: State, n: NodeId, v: Json, e: Edge)
    ensures Wakes(c, s, n, v, e) <==> e in Out(c, n) && Passes(c, s.counts, v, e)
  {
    hide Open, Passes;
    OpenIsPasses(c, s, v, e);
  }

  lemma SatisfiedIsHolding(c: Config, s: State, e: Edge)
    requires CountsBounded(c, s.counts)
    ensures EdgeSatisfied(c, s, s.counts, e) <==> HoldsOfSource(s, e)
  {
    hide Condition, Holds;
    if e.from in s.outputs {
      HoldsIsCondition(e, s.outputs[e.from]);
    }
  }

  lemma MayStartIsEligible(c: Config, s: State, x: NodeId)
    requires Books(c, s) && In(c, x) != []
    ensures Eligible(c, s, s.counts, x) <==> MayStart(c, s, x)
  {
    hide EdgeSatisfied, HoldsOfSource, Tally, EmptySlots;
    forall e ensures EdgeSatisfied(c, s, s.counts, e) <==> HoldsOfSource(s, e) {
      SatisfiedIsHolding(c, s, e);
    }
    assert forall e :: e in In(c, x) <==> e in c.graph.edges && e.to == x;
    assert FanOutRunning(s, x) <==> x in s.fan;
  }

  /** The scan wants to start exactly the nodes that are woken. */
  lemma ReadyIsWoken(c: Config, s: State, n: NodeId, v: Json, fromFanIn: bool, x: NodeId)
    requires Books(c, s) && DistinctIds(c.graph.edges)
    ensures HasReady(ScanEdges(c, s, v, fromFanIn, Out(c, n)).ready, x) <==> Woken(c, s, n, v, x)
  {
    hide ScanEdges, Eligible, MayStart, Wakes, Passes, HasReady, OutEdges, InEdges, DistinctIds;
    OutEdgesDistinctIds(c.graph.edges, n);
    assert CountsBounded(c, s.counts) by { BoundedCounts(c, s); }
    ScanExact(c, s, v, fromFanIn, Out(c, n));
    ReachedIsWoken(c, s, n, v, x);
    if e :| Wakes(c, s, n, v, e) && e.to == x {
      WakesEnters(c, s, n, v, e);
      MayStartIsEligible(c, s, x);
    }
  }

  lemma BoundedCounts(c: Config, s: State)
    requires Books(c, s)
    ensures CountsBounded(c, s.counts)
  {
  }

  lemma WakesEnters(c: Config, s: State, n: NodeId, v: Json, e: Edge)
    requires Wakes(c, s, n, v, e)
    ensures In(c, e.to) != []
  {
    assert e in In(c, e.to);
  }

  lemma ReachedIsWoken(c: Config, s: State, n: NodeId, v: Json, x: NodeId)
    ensures Reached(c, s, v, Out(c, n), x) <==> exists e :: Wakes(c, s, n, v, e) && e.to == x
  {
    hide Wakes, Passes, OutEdges;
    forall e ensures Wakes(c, s, n, v, e) <==> e in Out(c, n) && Passes(c, s.counts, v, e) {
      WakesIsPasses(c, s, n, v, e);
    }
  }

  // ---- With what ----

  /** The first edge, in the order of the graph, by which `n` wakes `x`. */
  ghost predicate FirstTo(c: Config, s: State, v: Json, edges: seq<Edge>, x: NodeId, e: Edge) {
    exists i :: 0 <= i < |edges| && edges[i] == e && Hits(c, s, v, x, e) &&
                forall j :: 0 <= j < i ==> !Hits(c, s, v, x, edges[j])
  }

  predicate Hits(c: Config, s: State, v: Json, x: NodeId, e: Edge) { e.to == x && Open(c, s, v, e) }

  lemma FirstToSnoc(c: Config, s: State, v: Json, edges: seq<Edge>, last: Edge, x: NodeId, e: Edge)
    ensures FirstTo(c, s, v, edges, x, e) ==> FirstTo(c, s, v, edges + [last], x, e)
    ensures Hits(c, s, v, x, last) && !Reached(c, s, v, edges, x) ==> FirstTo(c, s, v, edges + [last], x, last)
  {
    hide Passes, Open, Reached, Hits;
    var longer := edges + [last];
    assert longer[|edges|] == last && forall j :: 0 <= j < |edges| ==> longer[j] == edges[j];
    if FirstTo(c, s, v, edges, x, e) {
      var i :| 0 <= i < |edges| && edges[i] == e && Hits(c, s, v, x, e) &&
               forall j :: 0 <= j < i ==> !Hits(c, s, v, x, edges[j]);
      assert longer[i] == e;
    }
    if Hits(c, s, v, x, last) && !Reached(c, s, v, edges, x) {
      forall j | 0 <= j < |edges| ensures !Hits(c, s, v, x, longer[j]) {
        HitReaches(c, s, v, edges, x, edges[j]);
      }
    }
  }

  lemma HitReaches(c: Config, s: State, v: Json, edges: seq<Edge>, x: NodeId, e: Edge)
    requires e in edges
    ensures Hits(c, s, v, x, e) ==> Reached(c, s, v, edges, x)
  {
    hide Passes, Open;
    OpenIsPasses(c, s, v, e);
  }

  ghost predicate Bears(c: Config, s: State, v: Json, fromFanIn: bool, edges: seq<Edge>, r: ReadyNode) {
    exists e :: FirstTo(c, s, v, edges, r.node, e) && r.items == FanOutItems(v, e, fromFanIn)
  }

  /** What is started bears what the first edge to it carries. */
  lemma {:induction false} ScanBears(c: Config, s: State, v: Json, fromFanIn: bool, edges: seq<Edge>)
    requires DistinctIds(edges)
    ensures forall r :: r in ScanEdges(c, s, v, fromFanIn, edges).ready ==> Bears(c, s, v, fromFanIn, edges, r)
  {
    hide Condition, Eligible, FanOutItems, FirstTo, Reached, Traversed, Open;
    if edges != [] {
      var front, e := edges[..|edges| - 1], edges[|edges| - 1];
      ScanBears(c, s, v, fromFanIn, front);
      ScanSeenExact(c, s, v, fromFanIn, front);
      ScanCountsExact(c, s, v, fromFanIn, front);
      FirstTraversal(c, s, v, edges);
      assert edges == front + [e];
      forall r | r in ScanEdges(c, s, v, fromFanIn, edges).ready ensures Bears(c, s, v, fromFanIn, edges, r) {
        if r in ScanEdges(c, s, v, fromFanIn, front).ready {
          var x :| FirstTo(c, s, v, front, r.node, x) && r.items == FanOutItems(v, x, fromFanIn);
          FirstToSnoc(c, s, v, front, e, r.node, x);
        } else {
          OpenIsPasses(c, s, v, e);
          FirstToSnoc(c, s, v, front, e, r.node, e);
        }
      }
    }
  }

  // ---- After the spawning ----

  /** The items of a non-empty array, unless the array came from a fan-in. */
  function ItemsOn(e: Edge, v: Json, fromFanIn: bool): Option<seq<Json>> {
    var carried := Carried(v, e.fromPort);
    if !fromFanIn && carried.Array? && carried.items != [] then Some(carried.items) else None
  }

  lemma ItemsOnIsItems(e: Edge, v: Json, fromFanIn: bool)
    ensures FanOutItems(v, e, fromFanIn) == ItemsOn(e, v, fromFanIn)
  {
    hide EdgeValue, Carried;
    CarriedIsValue(v, e.fromPort);
  }

  /** The node is fanned out over the items, one instance each, none reported yet. */
  ghost predicate FannedOver(s: State, x: NodeId, items: seq<Json>) {
    && x in s.fan && s.fan[x].expected == |items| && s.fan[x].completed == 0
    && |s.fan[x].results| == |items| && (forall i :: 0 <= i < |items| ==> s.fan[x].results[i] == None)
    && forall i :: 0 <= i < |items| ==> Task(x, Some(i), items[i]) in s.tasks
  }

  /** The node runs as a whole on the given outputs. */
  ghost predicate RunsOn(c: Config, outputs: map<NodeId, Json>, s: State, x: NodeId) {
    x in s.running && exists input :: InputIs(c, outputs, x, input) && Task(x, None, input) in s.tasks
  }

  ghost predicate UnderWay(c: Config, outputs: map<NodeId, Json>, s: State, x: NodeId, items: Option<seq<Json>>) {
    x !in s.completed && match items case Some(xs) => FannedOver(s, x, xs) case None => RunsOn(c, outputs, s, x)
  }

  lemma SpawnStarts(c: Config, s: State, r: ReadyNode)
    requires r.isCycle == (r.node in s.completed)
    ensures UnderWay(c, s.outputs, Spawn(c, s, r), r.node, r.items)
  {
    hide ResolveInputs, InputIs;
    ResolvedInput(c, s.outputs, r.node);
    var s' := Spawn(c, s, r);
    match r.items {
      case Some(items) =>
        forall i | 0 <= i < |items| ensures Task(r.node, Some(i), items[i]) in s'.tasks {
          assert s'.tasks[|s.tasks| + i] == Task(r.node, Some(i), items[i]);
        }
      case None =>
        assert s'.tasks[|s.tasks|] == Task(r.node, None, ResolveInputs(c, s.outputs, r.node));
    }
  }

  /** Starting another node takes nothing from one that has been started. */
  lemma SpawnKeepsStarted(c: Config, outputs: map<NodeId, Json>, s: State, r: ReadyNode, x: NodeId,
                          items: Option<seq<Json>>)
    requires UnderWay(c, outputs, s, x, items) && r.node != x
    ensures UnderWay(c, outputs, Spawn(c, s, r), x, items)
  {
    hide Spawn, InputIs;
    SpawnFrame(c, s, r, x);
    var s' := Spawn(c, s, r);
    assert forall t :: t in s.tasks ==> t in s'.tasks;
  }

  lemma SpawnFrame(c: Config, s: State, r: ReadyNode, x: NodeId)
    requires r.node != x
    ensures var s' := Spawn(c, s, r);
      && s.tasks <= s'.tasks && (x in s'.completed <==> x in s.completed) && (x in s'.running <==> x in s.running)
      && (x in s'.fan <==> x in s.fan) && (x in s.fan ==> s'.fan[x] == s.fan[x])
  {
    hide ResolveInputs;
  }

  lemma {:induction false} SpawnAllStarts(c: Config, s: State, ready: seq<ReadyNode>, k: nat)
    requires DistinctNodes(ready) && k < |ready|
    requires ready[k].isCycle == (ready[k].node in s.completed)
    ensures UnderWay(c, s.outputs, SpawnAll(c, s, ready), ready[k].node, ready[k].items)
  {
    hide UnderWay, Spawn;
    var front, last := ready[..|ready| - 1], ready[|ready| - 1];
    if k < |front| {
      SpawnAllStarts(c, s, front, k);
      SpawnKeepsStarted(c, s.outputs, SpawnAll(c, s, front), last, ready[k].node, ready[k].items);
    } else {
      SpawnAllFrame(c, s, front, last.node);
      SpawnStarts(c, SpawnAll(c, s, front), last);
    }
  }

  /** What a finished node does to node `x`. */
  ghost predicate EffectOn(c: Config, s: State, n: NodeId, v: Json, fromFanIn: bool, s': State, x: NodeId) {
    if Woken(c, s, n, v, x) then
      && Activations(s'.log, x) == Activations(s.log, x) + 1
      && exists e :: FirstTo(c, s, v, Out(c, n), x, e) && UnderWay(c, s.outputs, s', x, ItemsOn(e, v, fromFanIn))
    else
      && Activations(s'.log, x) == Activations(s.log, x)
      && (x in s'.completed <==> x in s.completed) && (x in s'.running <==> x in s.running)
      && (x in s'.fan <==> x in s.fan)
  }

  /** When a node has finished: exactly the woken nodes are started, each once, fanned out over the
      array that the first edge to it carries, or as a whole on its inputs; and exactly the edges
      that hold and had a traversal left have used one. */
  lemma DownstreamEffect(c: Config, s: State, n: NodeId, v: Json, fromFanIn: bool, x: NodeId)
    requires Books(c, s) && DistinctIds(c.graph.edges)
    ensures EffectOn(c, s, n, v, fromFanIn, Downstream(c, s, n, v, fromFanIn), x)
  {
    hide ScanEdges, SpawnAll, Woken, Activations, UnderWay, FirstTo, OutEdges, FanOutItems, ItemsOn, DistinctIds;
    hide Startable, Bears, Books;
    var a := ScanEdges(c, s, v, fromFanIn, Out(c, n));
    var s1 := s.(counts := a.counts);
    OutEdgesDistinctIds(c.graph.edges, n);
    ScanReady(c, s, v, fromFanIn, Out(c, n));
    ScanBears(c, s, v, fromFanIn, Out(c, n));
    ReadyIsWoken(c, s, n, v, fromFanIn, x);
    AllCarryItems(c, s, a.ready);
    SpawnAllActivates(c, s1, a.ready, x);
    if HasReady(a.ready, x) {
      var r :| r in a.ready && r.node == x;
      assert Bears(c, s, v, fromFanIn, Out(c, n), r);
      ReadyStarts(c, s, s1, n, v, fromFanIn, a.ready, r);
    } else {
      SpawnAllFrame(c, s1, a.ready, x);
    }
  }

  lemma ReadyStarts(c: Config, s: State, s1: State, n: NodeId, v: Json, fromFanIn: bool, ready: seq<ReadyNode>,
                    r: ReadyNode)
    requires s1 == s.(counts := s1.counts) && DistinctNodes(ready) && r in ready && r.isCycle == (r.node in s.completed)
    requires Bears(c, s, v, fromFanIn, Out(c, n), r)
    ensures exists e :: FirstTo(c, s, v, Out(c, n), r.node, e)
                     && UnderWay(c, s.outputs, SpawnAll(c, s1, ready), r.node, ItemsOn(e, v, fromFanIn))
  {
    hide SpawnAll, UnderWay, FirstTo, FanOutItems, ItemsOn, DistinctNodes, Out;
    var k :| 0 <= k < |ready| && ready[k] == r;
    SpawnAllStarts(c, s1, ready, k);
    var e :| FirstTo(c, s, v, Out(c, n), r.node, e) && r.items == FanOutItems(v, e, fromFanIn);
    ItemsOnIsItems(e, v, fromFanIn);
  }

  lemma AllCarryItems(c: Config, s: State, ready: seq<ReadyNode>)
    requires forall r :: r in ready ==> Startable(c, s, r)
    ensures forall r :: r in ready ==> r.isCycle == (r.node in s.completed)
    ensures forall r :: r in ready && r.items.Some? ==> r.items.value != []
  {
  }

  /** The traversals used by a finished node. */
  lemma DownstreamCounts(c: Config, s: State, n: NodeId, v: Json, fromFanIn: bool, id: EdgeId)
    requires DistinctIds(c.graph.edges)
    ensures Count(Downstream(c, s, n, v, fromFanIn).counts, id) ==
            Count(s.counts, id) + if exists e :: Wakes(c, s, n, v, e) && e.id == id then 1 else 0
  {
    hide ScanEdges, SpawnAll, Wakes, Passes, OutEdges, DistinctIds;
    var a := ScanEdges(c, s, v, fromFanIn, Out(c, n));
    OutEdgesDistinctIds(c.graph.edges, n);
    ScanCountsExact(c, s, v, fromFanIn, Out(c, n));
    SpawnAllCounts(c, s.(counts := a.counts), a.ready);
    forall e ensures Wakes(c, s, n, v, e) <==> e in Out(c, n) && Passes(c, s.counts, v, e) {
      WakesIsPasses(c, s, n, v, e);
    }
  }
}
