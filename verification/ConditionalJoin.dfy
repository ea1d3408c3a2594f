/** The smallest flow whose schedules disagree: a join is looked at only when an edge into it
    passes, so its last source finishing along a false edge leaves it waiting. */
module ConditionalJoin {
  import opened Common
  import opened Graph
  import BackEdges
  import opened Scheduler
  import opened SchedulerBooks
  import opened ScheduleSoundness
  import opened ScheduleIndependence

  /** Two entry nodes `a` and `b`, with a plain edge and a conditional edge into `join`. */
  ghost predicate IsFlow(c: Config, a: NodeId, b: NodeId, join: NodeId, left: Edge, right: Edge) {
    && a != b && a != join && b != join
    && c.graph == Graph([a, b, join], [left, right])
    && left.from == a && left.to == join && left.condition == None
    && right.from == b && right.to == join && right.id != left.id
    && c.back == {} && c.maxTraversals >= 1
  }

  lemma FlowEdges(c: Config, a: NodeId, b: NodeId, join: NodeId, left: Edge, right: Edge, n: NodeId)
    requires IsFlow(c, a, b, join, left, right)
    ensures Out(c, n) == if n == a then [left] else if n == b then [right] else []
    ensures In(c, n) == if n == join then [left, right] else []
  {
    EdgesSnoc([], left, n);
    EdgesSnoc([left], right, n);
    assert [] + [left] == [left] && [left] + [right] == [left, right];
  }

  lemma FlowEntries(c: Config, a: NodeId, b: NodeId, join: NodeId, left: Edge, right: Edge)
    requires IsFlow(c, a, b, join, left, right)
    ensures BackEdges.EntryNodes(c.graph, c.back) == [a, b]
  {
    var g, nodes := c.graph, c.graph.nodes;
    assert left in g.edges && forall e :: e in g.edges ==> e.to == join;
    assert nodes[1..] == [b, join] && [b, join][1..] == [join] && [join][1..] == [];
    assert BackEdges.EntryNodesIn(g, c.back, [join]) == [];
    assert BackEdges.EntryNodesIn(g, c.back, [b, join]) == [b];
  }

  function Traverse(c: Config, s: State, output: Json, e: Edge): map<EdgeId, nat> {
    s.counts[e.id := Count(s.counts, e.id) + if Passes(c, s.counts, output, e) then 1 else 0]
  }

  /** The only edge of a finished node starts its target or nothing. */
  lemma OneEdge(c: Config, s: State, n: NodeId, output: Json, e: Edge)
    requires Out(c, n) == [e] && !FansOut(e, output) && e.to !in s.completed
    ensures var counts := Traverse(c, s, output, e);
      Downstream(c, s, n, output, false) ==
      if Passes(c, s.counts, output, e) && Eligible(c, s, counts, e.to) then SpawnNormal(c, s.(counts := counts), e.to)
      else s.(counts := counts)
  {
    hide Passes, Eligible, SpawnNormal, FansOut, ScanEdges, SpawnAll;
    ScanOne(c, s, output, e);
    var counts := Traverse(c, s, output, e);
    SpawnOne(c, s.(counts := counts), e.to);
  }

  lemma ScanOne(c: Config, s: State, output: Json, e: Edge)
    requires !FansOut(e, output) && e.to !in s.completed
    ensures var a, counts := ScanEdges(c, s, output, false, [e]), Traverse(c, s, output, e);
      && a.counts == counts
      && a.ready ==
         if Passes(c, s.counts, output, e) && Eligible(c, s, counts, e.to) then [ReadyNode(e.to, None, false)] else []
  {
  }

  lemma SpawnOne(c: Config, s: State, n: NodeId)
    ensures SpawnAll(c, s, []) == s && SpawnAll(c, s, [ReadyNode(n, None, false)]) == SpawnNormal(c, s, n)
  {
  }

  /** The join is due exactly when both sources have completed, and the left edge always holds. */
  lemma JoinEligible(c: Config, s: State, counts: map<EdgeId, nat>, a: NodeId, b: NodeId, join: NodeId, left: Edge,
                     right: Edge)
    requires IsFlow(c, a, b, join, left, right) && s.failed == {} && s.fan == map[]
    requires join !in s.running && join !in s.completed && CountsBounded(c, counts)
    requires a in s.completed ==> a in s.outputs
    requires b in s.completed && b in s.outputs ==> !Condition(right, s.outputs[b])
    ensures Eligible(c, s, counts, join) <==> a in s.completed && b in s.completed
  {
  }

  function AfterSource(c: Config, h: Handler, s: State, k: nat): State
    requires k < |s.tasks|
  {
    var t := s.tasks[k];
    var v := h(t.node, t.input);
    SuccessState(Taken(s, k, Success(v)), t.node, v)
  }

  lemma SourceStep(c: Config, h: Handler, s: State, k: nat, e: Edge)
    requires k < |s.tasks| && s.tasks[k].index == None && s.tasks[k].node != e.to && e.to !in s.completed
    requires Out(c, s.tasks[k].node) == [e] && !FansOut(e, h(s.tasks[k].node, s.tasks[k].input))
    ensures var s2, v := AfterSource(c, h, s, k), h(s.tasks[k].node, s.tasks[k].input);
      var counts := Traverse(c, s2, v, e);
      StepWith(c, h, s, k) ==
      if Passes(c, s2.counts, v, e) && Eligible(c, s2, counts, e.to) then SpawnNormal(c, s2.(counts := counts), e.to)
      else s2.(counts := counts)
  {
    var v := h(s.tasks[k].node, s.tasks[k].input);
    StepCases(c, s, k, Success(v));
    hide Step, Downstream, Passes, Eligible, FansOut, ResolveInputs, Traverse;
    OneEdge(c, AfterSource(c, h, s, k), s.tasks[k].node, v, e);
  }

  // ---- The two sources that can finish last disagree ----

  lemma FlowOrder(c: Config, a: NodeId, b: NodeId, join: NodeId, left: Edge, right: Edge)
    requires IsFlow(c, a, b, join, left, right)
    ensures ValidGraph(c.graph) && TopologicalOrder(c.graph, [a, b, join])
  {
    var order := [a, b, join];
    assert order[0] == a && order[1] == b && order[2] == join;
    forall i, e | 0 <= i < 3 && e in c.graph.edges && e.to == order[i] ensures e.from in order[..i] {
      assert i == 2 && order[..2] == [a, b];
      assert a in order[..2] && b in order[..2] by { assert order[..2][0] == a && order[..2][1] == b; }
    }
  }

  lemma PlainHolds(e: Edge, output: Json)
    requires e.condition == None
    ensures Condition(e, output)
  {
  }

  /** The sources run, on the trigger inputs, and the join is part of the sequential evaluation. */
  lemma FlowMeaning(c: Config, h: Handler, a: NodeId, b: NodeId, join: NodeId, left: Edge, right: Edge)
    requires IsFlow(c, a, b, join, left, right)
    ensures var m := Sequential(c, h, [a, b, join]);
      && a in m && b in m && join in m && m[a] == h(a, c.inputs) && m[b] == h(b, c.inputs)
  {
    hide *;
    var order := [a, b, join];
    FlowShape(c, a, b, join, left, right);
    FlowOrder(c, a, b, join, left, right);
    FlowEdges(c, a, b, join, left, right, a);
    FlowEdges(c, a, b, join, left, right, b);
    FlowEdges(c, a, b, join, left, right, join);
    SequentialSolves(c, h, order, 3);
    assert order[..3] == order;
    var m := Sequential(c, h, order);
    assert Solves(c, h, m, order[0]) && Solves(c, h, m, order[1]) && Solves(c, h, m, order[2]);
    EntrySolved(c, h, m, a);
    EntrySolved(c, h, m, b);
    JoinSolved(c, h, m, join, left, right);
  }

  lemma FlowShape(c: Config, a: NodeId, b: NodeId, join: NodeId, left: Edge, right: Edge)
    requires IsFlow(c, a, b, join, left, right)
    ensures a != b && a != join && b != join && left.from == a && right.from == b && left.condition == None
  {
  }

  lemma EntrySolved(c: Config, h: Handler, m: Results, n: NodeId)
    requires Solves(c, h, m, n) && In(c, n) == []
    ensures n in m && m[n] == h(n, c.inputs)
  {
    hide Condition, ResolveInputs, In;
  }

  lemma JoinSolved(c: Config, h: Handler, m: Results, join: NodeId, left: Edge, right: Edge)
    requires Solves(c, h, m, join) && In(c, join) == [left, right]
    requires left.from in m && right.from in m && left.condition == None
    ensures join in m
  {
    hide Condition, ResolveInputs, In;
    PlainHolds(left, m[left.from]);
    assert left in In(c, join);
  }

  lemma SourceCanBeLast(c: Config, a: NodeId, b: NodeId, join: NodeId, left: Edge, right: Edge, y: NodeId)
    requires IsFlow(c, a, b, join, left, right) && (y == a || y == b)
    ensures CanBeLast(c, y, join)
  {
    assert left in c.graph.edges && right in c.graph.edges;
    assert HasEdge(c, a, join) && HasEdge(c, b, join);
    forall z | HasEdge(c, z, join) && z != y ensures !Reach(c.graph, y, z) {
      forall p | Walk(c.graph, y, p, z) ensures false {
        LastEdge(c.graph, y, p, z);
      }
    }
  }

  lemma FlowDivided(c: Config, h: Handler, a: NodeId, b: NodeId, join: NodeId, left: Edge, right: Edge)
    requires IsFlow(c, a, b, join, left, right) && !Condition(right, h(b, c.inputs))
    ensures var m := Sequential(c, h, [a, b, join]);
      !Unanimous(c, m, Settled(c, m, [a, b, join])) && !LastSourceHolds(c, m)
  {
    var order := [a, b, join];
    var m := Sequential(c, h, order);
    var k := Settled(c, m, order);
    FlowOrder(c, a, b, join, left, right);
    FlowMeaning(c, h, a, b, join, left, right);
    SettledSettles(c, m, order);
    SourceCanBeLast(c, a, b, join, left, right, a);
    SourceCanBeLast(c, a, b, join, left, right, b);
    hide Sequential, Settled, TopologicalOrder, ValidGraph, Reach;
    assert left in c.graph.edges && Holding(c, m, a, join);
    assert !Holding(c, m, b, join);
    SettlesAt(c, m, k, a);
    SettlesAt(c, m, k, b);
    assert forall y :: !HasEdge(c, y, a) && !HasEdge(c, y, b);
    assert a in k && b in k && SourcesIn(c, k, join);
    assert !UnanimousAt(c, m, k, join);
  }

  lemma FlowAssumptions(c: Config, h: Handler, a: NodeId, b: NodeId, join: NodeId, left: Edge, right: Edge)
    requires IsFlow(c, a, b, join, left, right)
    requires !FansOut(left, h(a, c.inputs))
    requires !Condition(right, h(b, c.inputs))
    ensures Assumptions(c, h, [a, b, join])
  {
    hide Sequential, Condition, FansOut, TopologicalOrder, ValidGraph;
    FlowOrder(c, a, b, join, left, right);
    FlowMeaning(c, h, a, b, join, left, right);
    FalseCarriesNothing(right, h(b, c.inputs));
  }

  lemma FalseCarriesNothing(e: Edge, output: Json)
    requires !Condition(e, output)
    ensures !FansOut(e, output)
  {
    hide Condition;
  }

  /** So the schedules do not agree, by the general theorem. */
  lemma JoinDividesSchedules(c: Config, h: Handler, a: NodeId, b: NodeId, join: NodeId, left: Edge, right: Edge)
    requires IsFlow(c, a, b, join, left, right) && !Condition(right, h(b, c.inputs))
    requires !FansOut(left, h(a, c.inputs))
    ensures !SchedulesAgree(c, h) && !AlwaysCompletes(c, h, Sequential(c, h, [a, b, join]).Keys)
  {
    hide SchedulesAgree, AlwaysCompletes, Unanimous, LastSourceHolds, Sequential, Assumptions, Settled, FansOut;
    hide Condition;
    FlowAssumptions(c, h, a, b, join, left, right);
    FlowDivided(c, h, a, b, join, left, right);
    AgreeIffUnanimous(c, h, [a, b, join]);
    CompletesIffLastSourceHolds(c, h, [a, b, join]);
  }

  // ---- The two schedules themselves ----

  /** Whether the join ever runs depends on which source finishes first, whatever the handlers
      return, as long as nothing fans out and the condition on the right edge does not hold. */
  lemma JoinDependsOnSchedule(c: Config, h: Handler, a: NodeId, b: NodeId, join: NodeId, left: Edge, right: Edge)
    requires IsFlow(c, a, b, join, left, right) && !Condition(right, h(b, c.inputs))
    requires !FansOut(left, h(a, c.inputs))
    ensures RunWith(c, h, [0, 0]).tasks == [] && join !in RunWith(c, h, [0, 0]).completed
    ensures RunWith(c, h, [1, 0, 0]).tasks == [] && join in RunWith(c, h, [1, 0, 0]).completed
  {
    hide *;
    LeftFirst(c, h, a, b, join, left, right, [0, 0]);
    RightFirst(c, h, a, b, join, left, right, [1, 0, 0]);
  }

  lemma FlowStart(c: Config, h: Handler, a: NodeId, b: NodeId, join: NodeId, left: Edge, right: Edge)
    requires IsFlow(c, a, b, join, left, right)
    ensures var s := RunWith(c, h, []);
      && s.tasks == [Task(a, None, c.inputs), Task(b, None, c.inputs)] && s.completed == {} && s.failed == {}
      && s.running == {a, b} && s.fan == map[] && s.counts == map[]
  {
    FlowEntries(c, a, b, join, left, right);
    assert EntryTasks(c, [a, b]) == [Task(a, None, c.inputs), Task(b, None, c.inputs)];
  }

  /** The join has not begun, and what has finished has left its output. */
  ghost predicate Before(c: Config, h: Handler, s: State, a: NodeId, b: NodeId, join: NodeId, left: Edge) {
    && s.failed == {} && s.fan == map[] && join !in s.running && join !in s.completed
    && CountsBounded(c, s.counts) && (a !in s.completed ==> Count(s.counts, left.id) == 0)
    && (a in s.completed ==> a in s.outputs)
    && (b in s.completed ==> b in s.outputs && s.outputs[b] == h(b, c.inputs))
  }

  ghost predicate JoinAdded(rest: seq<Task>, tasks: seq<Task>, join: NodeId) {
    exists t: Task :: tasks == rest + [t] && t.node == join && t.index == None
  }

  /** Task `k` of two is this one, and `rest` is what remains without it. */
  ghost predicate Picked(tasks: seq<Task>, k: nat, t: Task, rest: seq<Task>) {
    k < |tasks| && tasks[k] == t && rest == tasks[..k] + tasks[k + 1..]
  }

  lemma PickedOf(x: Task, y: Task)
    ensures Picked([x, y], 0, x, [y]) && Picked([x, y], 1, y, [x])
    ensures Picked([x], 0, x, [])
  {
  }

  /** The left source finishes: the join starts if the right one has completed. */
  lemma LeftFinishes(c: Config, h: Handler, s: State, k: nat, a: NodeId, b: NodeId, join: NodeId, left: Edge,
                     right: Edge, rest: seq<Task>)
    requires IsFlow(c, a, b, join, left, right) && Before(c, h, s, a, b, join, left)
    requires !Condition(right, h(b, c.inputs)) && !FansOut(left, h(a, c.inputs))
    requires Picked(s.tasks, k, Task(a, None, c.inputs), rest) && a !in s.completed
    ensures var s' := StepWith(c, h, s, k);
      && s'.completed == s.completed + {a}
      && (b !in s.completed ==> s'.tasks == rest && Before(c, h, s', a, b, join, left))
      && (b in s.completed ==> JoinAdded(rest, s'.tasks, join))
  {
    hide Condition, FansOut, StepWith, ResolveInputs, Eligible, Out, In, Passes, Traverse, CountsBounded;
    FlowEdges(c, a, b, join, left, right, a);
    SourceStep(c, h, s, k, left);
    var s2, v := AfterSource(c, h, s, k), h(a, c.inputs);
    TraverseBounded(c, s2, v, left);
    JoinEligible(c, s2, Traverse(c, s2, v, left), a, b, join, left, right);
    LeftPasses(c, a, b, join, left, right, s2.counts, v);
  }

  lemma TraverseBounded(c: Config, s: State, output: Json, e: Edge)
    requires CountsBounded(c, s.counts)
    ensures CountsBounded(c, Traverse(c, s, output, e))
    ensures forall id :: id != e.id ==> Count(Traverse(c, s, output, e), id) == Count(s.counts, id)
  {
    hide Condition;
  }

  lemma LeftPasses(c: Config, a: NodeId, b: NodeId, join: NodeId, left: Edge, right: Edge, counts: map<EdgeId, nat>,
                   v: Json)
    requires IsFlow(c, a, b, join, left, right) && Count(counts, left.id) == 0
    ensures Passes(c, counts, v, left)
  {
  }

  /** The right source finishes: its edge does not hold, and nothing starts. */
  lemma RightFinishes(c: Config, h: Handler, s: State, k: nat, a: NodeId, b: NodeId, join: NodeId, left: Edge,
                      right: Edge, rest: seq<Task>)
    requires IsFlow(c, a, b, join, left, right) && Before(c, h, s, a, b, join, left)
    requires !Condition(right, h(b, c.inputs))
    requires Picked(s.tasks, k, Task(b, None, c.inputs), rest) && b !in s.completed
    ensures var s' := StepWith(c, h, s, k);
      && s'.tasks == rest && s'.completed == s.completed + {b}
      && Before(c, h, s', a, b, join, left)
  {
    hide Condition, FansOut, StepWith, ResolveInputs, Eligible, Out, In, Passes, Traverse, CountsBounded;
    FlowEdges(c, a, b, join, left, right, b);
    FalseCarriesNothing(right, h(b, c.inputs));
    SourceStep(c, h, s, k, right);
    var s2 := AfterSource(c, h, s, k);
    FalseNeverPasses(c, s2.counts, h(b, c.inputs), right);
    TraverseBounded(c, s2, h(b, c.inputs), right);
  }

  lemma FalseNeverPasses(c: Config, counts: map<EdgeId, nat>, output: Json, e: Edge)
    requires !Condition(e, output)
    ensures !Passes(c, counts, output, e)
  {
    hide Condition;
  }

  lemma FlowBefore(c: Config, h: Handler, a: NodeId, b: NodeId, join: NodeId, left: Edge, right: Edge)
    requires IsFlow(c, a, b, join, left, right)
    ensures var s := RunWith(c, h, []);
      && s.tasks == [Task(a, None, c.inputs), Task(b, None, c.inputs)] && s.completed == {}
      && Before(c, h, s, a, b, join, left)
  {
    hide RunWith;
    FlowStart(c, h, a, b, join, left, right);
  }

  lemma PickLast(c: Config, h: Handler, picks: seq<nat>)
    requires picks != []
    ensures RunWith(c, h, picks) == StepWith(c, h, RunWith(c, h, picks[..|picks| - 1]), picks[|picks| - 1])
  {
    hide StepWith, Init;
  }

  lemma LeftFirst(c: Config, h: Handler, a: NodeId, b: NodeId, join: NodeId, left: Edge, right: Edge, picks: seq<nat>)
    requires IsFlow(c, a, b, join, left, right) && !Condition(right, h(b, c.inputs))
    requires !FansOut(left, h(a, c.inputs))
    requires |picks| == 2 && picks[0] == 0 && picks[1] == 0
    ensures RunWith(c, h, picks).tasks == [] && join !in RunWith(c, h, picks).completed
  {
    hide *;
    FlowShape(c, a, b, join, left, right);
    assert picks[..1][..0] == [] && picks[..2] == picks;
    FlowBefore(c, h, a, b, join, left, right);
    PickLast(c, h, picks[..1]);
    PickLast(c, h, picks);
    var s0, s1 := RunWith(c, h, []), RunWith(c, h, picks[..1]);
    PickedOf(Task(a, None, c.inputs), Task(b, None, c.inputs));
    LeftFinishes(c, h, s0, 0, a, b, join, left, right, [Task(b, None, c.inputs)]);
    PickedOf(Task(b, None, c.inputs), Task(b, None, c.inputs));
    RightFinishes(c, h, s1, 0, a, b, join, left, right, []);
  }

  lemma RightFirst(c: Config, h: Handler, a: NodeId, b: NodeId, join: NodeId, left: Edge, right: Edge, picks: seq<nat>)
    requires IsFlow(c, a, b, join, left, right) && !Condition(right, h(b, c.inputs))
    requires !FansOut(left, h(a, c.inputs))
    requires |picks| == 3 && picks[0] == 1 && picks[1] == 0 && picks[2] == 0
    ensures RunWith(c, h, picks).tasks == [] && join in RunWith(c, h, picks).completed
  {
    hide *;
    FlowShape(c, a, b, join, left, right);
    assert picks[..1][..0] == [] && picks[..2][..1] == picks[..1];
    FlowEdges(c, a, b, join, left, right, join);
    FlowBefore(c, h, a, b, join, left, right);
    PickLast(c, h, picks[..1]);
    PickLast(c, h, picks[..2]);
    PickLast(c, h, picks);
    var s0, s1, s2 := RunWith(c, h, []), RunWith(c, h, picks[..1]), RunWith(c, h, picks[..2]);
    PickedOf(Task(a, None, c.inputs), Task(b, None, c.inputs));
    RightFinishes(c, h, s0, 1, a, b, join, left, right, [Task(a, None, c.inputs)]);
    LeftFinishes(c, h, s1, 0, a, b, join, left, right, []);
    JoinAlone(c, h, [], s2, join);
  }

  lemma JoinAlone(c: Config, h: Handler, rest: seq<Task>, s: State, join: NodeId)
    requires rest == [] && JoinAdded(rest, s.tasks, join) && Out(c, join) == []
    ensures StepWith(c, h, s, 0).tasks == [] && join in StepWith(c, h, s, 0).completed
  {
    hide StepWith, Out;
    LastStep(c, h, s);
  }

  /** A node without outgoing edges just completes. */
  lemma LastStep(c: Config, h: Handler, s: State)
    requires |s.tasks| == 1 && s.tasks[0].index == None && Out(c, s.tasks[0].node) == []
    ensures StepWith(c, h, s, 0).tasks == [] && s.tasks[0].node in StepWith(c, h, s, 0).completed
  {
  }
}
