/** Cycles iterate: two nodes that feed each other run until the traversal limit, and no longer. */
module TwoNodeCycle {
  import opened Common
  import opened Graph
  import BackEdges
  import opened Scheduler
  import opened SchedulerBooks
  import opened SchedulerBounds
  import opened SchedulerRunning
  import opened SchedulerStarts
  import opened SchedulerProgress

  /** From `a` to `b` and back, both unconditional; the way back is the back-edge. */
  ghost predicate IsCycle(c: Config, a: NodeId, b: NodeId, go: Edge, ret: Edge) {
    && a != b && c.graph == Graph([a, b], [go, ret]) && c.back == {ret.id} && go.id != ret.id
    && go.from == a && go.to == b && go.condition == None
    && ret.from == b && ret.to == a && ret.condition == None
  }

  lemma CycleShape(c: Config, a: NodeId, b: NodeId, go: Edge, ret: Edge)
    requires IsCycle(c, a, b, go, ret)
    ensures ValidGraph(c.graph) && forall e :: e in c.graph.edges <==> e == go || e == ret
    ensures forall n :: n in c.graph.nodes <==> n == a || n == b
  {
  }

  predicate FansOut(e: Edge, v: Json) {
    var carried := Carried(v, e.fromPort);
    carried.Array? && carried.items != []
  }

  /** Only `n` is under way. */
  ghost predicate OnlyRunning(c: Config, s: State, n: NodeId) {
    Books(c, s) && NodeBooks(s) && s.running == {n} && s.fan == map[] && s.failed == {}
  }

  /** `a` is running for the time `i + 1`. */
  ghost predicate AtA(c: Config, s: State, a: NodeId, b: NodeId, go: Edge, ret: Edge, i: nat) {
    && OnlyRunning(c, s, a) && i <= c.maxTraversals && s.completed == (if i == 0 then {} else {b})
    && Count(s.counts, go.id) == i && Count(s.counts, ret.id) == i
    && Activations(s.log, a) == i + 1 && Activations(s.log, b) == i
  }

  /** `b` is running for the time `i + 1`. */
  ghost predicate AtB(c: Config, s: State, a: NodeId, b: NodeId, go: Edge, ret: Edge, i: nat) {
    && OnlyRunning(c, s, b) && i < c.maxTraversals && s.completed == {a}
    && Count(s.counts, go.id) == i + 1 && Count(s.counts, ret.id) == i
    && Activations(s.log, a) == i + 1 && Activations(s.log, b) == i + 1
  }

  ghost predicate AtEnd(c: Config, s: State, a: NodeId, b: NodeId) {
    s.tasks == [] && Activations(s.log, a) == c.maxTraversals + 1 && Activations(s.log, b) == c.maxTraversals
  }

  ghost predicate Turning(c: Config, s: State, a: NodeId, b: NodeId, go: Edge, ret: Edge) {
    AtEnd(c, s, a, b) || exists i: nat :: AtA(c, s, a, b, go, ret, i) || AtB(c, s, a, b, go, ret, i)
  }

  // ---- One step ----

  lemma OnlyTask(c: Config, s: State, n: NodeId, k: nat)
    requires OnlyRunning(c, s, n) && k < |s.tasks|
    ensures s.tasks[k].node == n && s.tasks[k].index == None
  {
    hide Tally, EmptySlots;
    var t := s.tasks[k];
    TallyRemove(s.tasks, k, KeyOf(t));
    assert t.index.None? ==> Tally(s.tasks, (t.node, None)) == RunningDue(s, t.node);
    assert t.index.Some? ==> KeyOf(t) == (t.node, Some(t.index.value)) &&
                             Tally(s.tasks, (t.node, Some(t.index.value))) == InstanceDue(s.fan, t.node, t.index.value);
  }

  /** A node without items that is woken runs; a fan-out would need items. */
  lemma WokenRuns(c: Config, s: State, n: NodeId, v: Json, s': State, x: NodeId, e: Edge)
    requires EffectOn(c, s, n, v, false, s', x) && Woken(c, s, n, v, x) && !FansOut(e, v)
    requires forall d :: d in c.graph.edges && d.from == n && d.to == x ==> d == e
    ensures x in s'.running && x !in s'.completed && Activations(s'.log, x) == Activations(s.log, x) + 1
  {
    hide Woken, Activations, FirstTo, InputIs, Carried;
    var f :| FirstTo(c, s, v, Out(c, n), x, f) && UnderWay(c, s.outputs, s', x, ItemsOn(f, v, false));
    FirstIsOut(c, s, v, n, x, f);
  }

  lemma NotWoken(c: Config, s: State, n: NodeId, v: Json, x: NodeId)
    requires forall e :: e in c.graph.edges && e.from == n ==> e.to != x
    ensures !Woken(c, s, n, v, x)
  {
    hide MayStart, Open;
  }

  /** The state after a step, when `from` has finished and `to` is the only node it leads to. */
  ghost predicate Passed(c: Config, s: State, s': State, from: NodeId, to: NodeId, e: Edge, other: Edge, woken: bool) {
    && Books(c, s') && NodeBooks(s') && s'.failed == {} && s'.fan == map[]
    && s'.running == (if woken then {to} else {})
    && s'.completed == (if woken then {from} else s.completed + {from})
    && Count(s'.counts, e.id) == Count(s.counts, e.id) + (if woken then 1 else 0)
    && Count(s'.counts, other.id) == Count(s.counts, other.id)
    && Activations(s'.log, to) == Activations(s.log, to) + (if woken then 1 else 0)
    && Activations(s'.log, from) == Activations(s.log, from)
  }

  lemma Pass(c: Config, s: State, k: nat, v: Json, a: NodeId, b: NodeId, go: Edge, ret: Edge,
             from: NodeId, to: NodeId, e: Edge, other: Edge)
    requires IsCycle(c, a, b, go, ret) && OnlyRunning(c, s, from) && k < |s.tasks| && !FansOut(e, v)
    requires (from == a && to == b && e == go && other == ret) || (from == b && to == a && e == ret && other == go)
    requires s.completed <= {to} && (to in s.completed || (from == a && to == b))
    ensures Passed(c, s, Step(c, s, k, Success(v)), from, to, e, other, Count(s.counts, e.id) < c.maxTraversals)
  {
    hide Step, Activations, EffectOn, Books, NodeBooks, Woken, ValidGraph, EndpointsExist, Carried;
    CycleShape(c, a, b, go, ret);
    OnlyTask(c, s, from, k);
    var s' := Step(c, s, k, Success(v));
    StepKeepsBooks(c, s, k, v);
    var s2 := SuccessEffect(c, s, k, v, to);
    var s3 := SuccessEffect(c, s, k, v, from);
    WokenIffOpen(c, s, k, v, a, b, go, ret, from, to, e, other, s2);
    NotWoken(c, s3, from, v, from);
    PassCounts(c, s, k, v, a, b, go, ret, from, to, e, other);
    PassNodes(c, s, s2, s3, s', k, v, a, b, go, ret, from, to, e, other);
  }

  lemma StepKeepsBooks(c: Config, s: State, k: nat, v: Json)
    requires Books(c, s) && NodeBooks(s) && ValidGraph(c.graph) && k < |s.tasks| && s.tasks[k].index == None
    ensures Books(c, Step(c, s, k, Success(v))) && NodeBooks(Step(c, s, k, Success(v)))
    ensures Step(c, s, k, Success(v)).failed == s.failed
  {
    hide Books, NodeBooks, Step, Downstream, Distinct, DistinctIds, EndpointsExist;
    StepBooks(c, s, k, Success(v));
    StepExact(c, s, k, Success(v));
    StepCases(c, s, k, Success(v));
    var n := s.tasks[k].node;
    DownstreamFailed(c, SuccessState(Taken(s, k, Success(v)), n, v), n, v, false);
  }

  lemma WokenIffOpen(c: Config, s: State, k: nat, v: Json, a: NodeId, b: NodeId, go: Edge, ret: Edge,
                     from: NodeId, to: NodeId, e: Edge, other: Edge, s2: State)
    requires IsCycle(c, a, b, go, ret) && OnlyRunning(c, s, from) && k < |s.tasks| && s.tasks[k].node == from
    requires (from == a && to == b && e == go && other == ret) || (from == b && to == a && e == ret && other == go)
    requires s.completed <= {to} && (to in s.completed || (from == a && to == b)) && Succeeds(s, k, v, s2)
    ensures Woken(c, s2, from, v, to) <==> Count(s.counts, e.id) < c.maxTraversals
  {
    hide Books, NodeBooks;
    assert e in c.graph.edges && other in c.graph.edges;
    assert forall d :: d in c.graph.edges <==> d == go || d == ret;
    assert Wakes(c, s2, from, v, e) <==> Count(s.counts, e.id) < c.maxTraversals;
    assert MayStart(c, s2, to) by {
      if to !in s2.completed {
        assert HoldsOfSource(s2, go);
      }
    }
  }

  lemma PassCounts(c: Config, s: State, k: nat, v: Json, a: NodeId, b: NodeId, go: Edge, ret: Edge,
                   from: NodeId, to: NodeId, e: Edge, other: Edge)
    requires IsCycle(c, a, b, go, ret) && k < |s.tasks| && s.tasks[k].node == from && s.tasks[k].index == None
    requires (from == a && to == b && e == go && other == ret) || (from == b && to == a && e == ret && other == go)
    ensures var s' := Step(c, s, k, Success(v));
      && Count(s'.counts, e.id) == Count(s.counts, e.id) + (if Count(s.counts, e.id) < c.maxTraversals then 1 else 0)
      && Count(s'.counts, other.id) == Count(s.counts, other.id)
  {
    hide Step, Downstream;
    StepCases(c, s, k, Success(v));
    var s2 := SuccessState(Taken(s, k, Success(v)), from, v);
    assert DistinctIds(c.graph.edges);
    DownstreamCounts(c, s2, from, v, false, e.id);
    DownstreamCounts(c, s2, from, v, false, other.id);
    assert e in c.graph.edges && forall d :: d in c.graph.edges <==> d == go || d == ret;
    assert Wakes(c, s2, from, v, e) <==> Count(s.counts, e.id) < c.maxTraversals;
  }

  lemma PassNodes(c: Config, s: State, s2: State, s3: State, s': State, k: nat, v: Json, a: NodeId, b: NodeId,
                  go: Edge, ret: Edge, from: NodeId, to: NodeId, e: Edge, other: Edge)
    requires IsCycle(c, a, b, go, ret) && OnlyRunning(c, s, from) && k < |s.tasks| && s.tasks[k].node == from
    requires (from == a && to == b && e == go && other == ret) || (from == b && to == a && e == ret && other == go)
    requires s.completed <= {to} && Succeeds(s, k, v, s2) && Succeeds(s, k, v, s3) && !FansOut(e, v)
    requires Books(c, s') && NodeBooks(s')
    requires EffectOn(c, s2, from, v, false, s', to) && EffectOn(c, s3, from, v, false, s', from)
    requires !Woken(c, s3, from, v, from)
    ensures s'.fan == map[]
    ensures s'.running == if Woken(c, s2, from, v, to) then {to} else {}
    ensures s'.completed == if Woken(c, s2, from, v, to) then {from} else s.completed + {from}
    ensures Activations(s'.log, to) == Activations(s2.log, to) + if Woken(c, s2, from, v, to) then 1 else 0
    ensures Activations(s'.log, from) == Activations(s3.log, from)
  {
    hide Tally, Activations, Woken, FirstTo, UnderWay, FanBooks, CountsBounded, Carried;
    CycleShape(c, a, b, go, ret);
    if Woken(c, s2, from, v, to) {
      WokenRuns(c, s2, from, v, s', to, e);
    }
    forall x ensures x in s'.running || x in s'.completed || x in s'.fan ==> x == from || x == to {}
  }

  lemma Turn(c: Config, s: State, k: nat, v: Json, a: NodeId, b: NodeId, go: Edge, ret: Edge)
    requires IsCycle(c, a, b, go, ret) && Turning(c, s, a, b, go, ret) && k < |s.tasks|
    requires !FansOut(go, v) && !FansOut(ret, v)
    ensures Turning(c, Step(c, s, k, Success(v)), a, b, go, ret)
  {
    hide Step, Activations, Books, NodeBooks, IsCycle, FansOut;
    var s' := Step(c, s, k, Success(v));
    var i: nat :| AtA(c, s, a, b, go, ret, i) || AtB(c, s, a, b, go, ret, i);
    if AtA(c, s, a, b, go, ret, i) {
      CycleNodes(c, a, b, go, ret);
      Pass(c, s, k, v, a, b, go, ret, a, b, go, ret);
      if i < c.maxTraversals {
        assert AtB(c, s', a, b, go, ret, i);
      } else {
        NothingInFlight(c, s');
      }
    } else {
      CycleNodes(c, a, b, go, ret);
      Pass(c, s, k, v, a, b, go, ret, b, a, ret, go);
      assert AtA(c, s', a, b, go, ret, i + 1);
    }
  }

  lemma CycleNodes(c: Config, a: NodeId, b: NodeId, go: Edge, ret: Edge)
    requires IsCycle(c, a, b, go, ret)
    ensures a != b
  {
  }

  lemma StartsAtA(c: Config, a: NodeId, b: NodeId, go: Edge, ret: Edge)
    requires IsCycle(c, a, b, go, ret)
    ensures AtA(c, Init(c), a, b, go, ret, 0)
  {
    hide Activations, Books, NodeBooks, BackEdges.EntryNodes, Init, EntryTasks;
    CycleShape(c, a, b, go, ret);
    InitBooks(c);
    InitKeeps(c);
    InitShape(c);
    CycleEntries(c, a, b, go, ret);
    StartsEmpty(c, a);
    EntriesActivate(c, [a], a);
    EntriesActivate(c, [a], b);
  }

  lemma StartsEmpty(c: Config, a: NodeId)
    requires BackEdges.EntryNodes(c.graph, c.back) == [a]
    ensures var s := Init(c);
      && s.log == StartEntries(EntryTasks(c, [a])) && s.running == {a} && s.completed == {} && s.counts == map[]
      && s.fan == map[] && s.failed == {} && Distinct([a])
  {
    hide BackEdges.EntryNodes, EntryTasks;
    assert Elements([a]) == {a};
    var log := StartEntries(EntryTasks(c, [a]));
    assert [] + log == log;
  }

  lemma CycleEntries(c: Config, a: NodeId, b: NodeId, go: Edge, ret: Edge)
    requires IsCycle(c, a, b, go, ret)
    ensures BackEdges.EntryNodes(c.graph, c.back) == [a]
  {
    var g := c.graph;
    assert go in g.edges && forall e :: e in g.edges ==> e == go || e == ret;
    assert [a, b][1..] == [b] && [b][1..] == [];
    assert BackEdges.EntryNodesIn(g, c.back, [b]) == [];
  }

  // ---- The run ----

  /** All tasks succeed, with values that fan nothing out. */
  ghost predicate Plain(choices: seq<Choice>, go: Edge, ret: Edge) {
    forall ch :: ch in choices ==>
      ch.outcome.Success? && !FansOut(go, ch.outcome.value) && !FansOut(ret, ch.outcome.value)
  }

  lemma {:induction false} RunTurns(c: Config, choices: seq<Choice>, a: NodeId, b: NodeId, go: Edge, ret: Edge)
    requires IsCycle(c, a, b, go, ret) && Plain(choices, go, ret)
    ensures Turning(c, Run(c, choices), a, b, go, ret)
  {
    hide IsCycle, AtA, AtB, AtEnd, Step, Init, FansOut;
    if choices == [] {
      StartsAtA(c, a, b, go, ret);
    } else {
      var front, ch := choices[..|choices| - 1], choices[|choices| - 1];
      assert ch in choices && Plain(front, go, ret);
      RunTurns(c, front, a, b, go, ret);
      if ch.k < |Run(c, front).tasks| {
        Turn(c, Run(c, front), ch.k, ch.outcome.value, a, b, go, ret);
      }
    }
  }

  lemma RunningNotEmpty(c: Config, s: State, n: NodeId)
    requires OnlyRunning(c, s, n)
    ensures s.tasks != []
  {
    hide EmptySlots;
    assert Tally(s.tasks, (n, None)) >= 1;
  }

  /** A finished run of the cycle has started the entry node once more than the traversal limit, and
      the other node exactly as often as the limit. */
  lemma CycleIterates(c: Config, choices: seq<Choice>, a: NodeId, b: NodeId, go: Edge, ret: Edge)
    requires IsCycle(c, a, b, go, ret) && Plain(choices, go, ret) && Run(c, choices).tasks == []
    ensures var s := Run(c, choices);
      Activations(s.log, a) == c.maxTraversals + 1 && Activations(s.log, b) == c.maxTraversals
  {
    hide IsCycle, Run, Activations, OnlyRunning, Plain;
    RunTurns(c, choices, a, b, go, ret);
    var s := Run(c, choices);
    if i: nat :| AtA(c, s, a, b, go, ret, i) || AtB(c, s, a, b, go, ret, i) {
      RunningNotEmpty(c, s, if AtA(c, s, a, b, go, ret, i) then a else b);
    }
  }
}
