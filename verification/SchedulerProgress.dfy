/** What a finished task leads to: re-entry on cycles, fan-out, continuation after failures; and that
    every start in a run has been earned by a source that succeeded. */
module SchedulerProgress {
  import opened Common
  import opened Graph
  import BackEdges
  import opened Scheduler
  import opened SchedulerBooks
  import opened SchedulerBounds
  import opened SchedulerStarts
  import opened FanInResults

  // ---- One success ----

  /** The state between the success of task `k` and the evaluation of its edges. */
  ghost predicate Succeeds(s: State, k: nat, v: Json, s2: State)
    requires k < |s.tasks|
  {
    var n := s.tasks[k].node;
    && s2.completed == s.completed + {n} && s2.running == s.running - {n} && s2.outputs == s.outputs[n := v]
    && s2.failed == s.failed && s2.fan == s.fan && s2.counts == s.counts
    && s2.tasks == s.tasks[..k] + s.tasks[k + 1..]
  }

  lemma QuietLog(log: seq<Entry>, x: Entry, y: Entry, n: NodeId)
    requires !x.Started? && !y.Started?
    ensures Activations(log + [x] + [y], n) == Activations(log, n)
  {
    ActivationsConcat(log + [x], [y], n);
    ActivationsConcat(log, [x], n);
    OneActivates(x, n);
    OneActivates(y, n);
  }

  /** A normal task succeeds: what its edges start, told of the state before the step. */
  lemma SuccessEffect(c: Config, s: State, k: nat, v: Json, x: NodeId) returns (s2: State)
    requires Books(c, s) && ValidGraph(c.graph) && k < |s.tasks| && s.tasks[k].index == None
    ensures Succeeds(s, k, v, s2) && Activations(s2.log, x) == Activations(s.log, x)
    ensures EffectOn(c, s2, s.tasks[k].node, v, false, Step(c, s, k, Success(v)), x)
  {
    hide Books, Step, Downstream, EffectOn, Activations, Distinct, EndpointsExist, DistinctIds;
    var n := s.tasks[k].node;
    s2 := SuccessState(Taken(s, k, Success(v)), n, v);
    StepCases(c, s, k, Success(v));
    NormalBooks(c, s, k, Success(v), v);
    DownstreamEffect(c, s2, n, v, false, x);
    QuietLog(s.log, Finished(s.tasks[k], Success(v)), Done(n), x);
  }

  /** On a cycle: a node that has completed is started again when an edge of the node that just
      succeeded holds and has a traversal left. */
  lemma ReEntry(c: Config, s: State, k: nat, v: Json, e: Edge)
    requires Books(c, s) && ValidGraph(c.graph) && k < |s.tasks| && s.tasks[k].index == None
    requires e in c.graph.edges && e.from == s.tasks[k].node && Holds(e, v)
    requires (if e.id in s.counts then s.counts[e.id] else 0) < c.maxTraversals
    requires e.to in s.completed || e.to == e.from
    requires (e.to !in s.running || e.to == e.from) && e.to !in s.fan
    ensures var s' := Step(c, s, k, Success(v));
      && e.to !in s'.completed && Activations(s'.log, e.to) == Activations(s.log, e.to) + 1
      && exists t :: t in s'.tasks && t.node == e.to
  {
    hide Books, Step, Activations, ValidGraph, Holds, FirstTo, InputIs;
    var s2 := SuccessEffect(c, s, k, v, e.to);
    assert Wakes(c, s2, e.from, v, e) && MayStart(c, s2, e.to);
    assert Woken(c, s2, e.from, v, e.to);
    var s' := Step(c, s, k, Success(v));
    var f :| FirstTo(c, s2, v, Out(c, e.from), e.to, f) && UnderWay(c, s2.outputs, s', e.to, ItemsOn(f, v, false));
    StartedHasTask(c, s2.outputs, s', e.to, f, v);
  }

  lemma StartedHasTask(c: Config, outputs: map<NodeId, Json>, s: State, x: NodeId, e: Edge, v: Json)
    requires UnderWay(c, outputs, s, x, ItemsOn(e, v, false))
    ensures exists t :: t in s.tasks && t.node == x
  {
    hide InputIs, Carried;
    var items := ItemsOn(e, v, false);
    if items.Some? {
      assert Task(x, Some(0), items.value[0]) in s.tasks;
    }
  }

  /** A holding edge with a non-empty array, into a node that may start, opens a fan-out: one
      instance per item, in order. */
  lemma FanOutOpens(c: Config, s: State, k: nat, v: Json, e: Edge, items: seq<Json>)
    requires Books(c, s) && ValidGraph(c.graph) && k < |s.tasks| && s.tasks[k].index == None
    requires var n := s.tasks[k].node;
      && e in c.graph.edges && e.from == n && Holds(e, v)
      && (if e.id in s.counts then s.counts[e.id] else 0) < c.maxTraversals
      && (forall d :: d in c.graph.edges && d.from == n && d.to == e.to ==> d == e)
      && Carried(v, e.fromPort) == Array(items) && items != []
      && forall s2 :: Succeeds(s, k, v, s2) ==> MayStart(c, s2, e.to)
    ensures FannedOver(Step(c, s, k, Success(v)), e.to, items)
  {
    hide Books, Step, Activations, ValidGraph, Holds, MayStart, Succeeds, FannedOver, OutEdges;
    var s2 := SuccessEffect(c, s, k, v, e.to);
    assert Wakes(c, s2, e.from, v, e) by { SameCounts(s, k, v, s2); }
    assert Woken(c, s2, e.from, v, e.to);
    var s' := Step(c, s, k, Success(v));
    var f :| FirstTo(c, s2, v, Out(c, e.from), e.to, f) && UnderWay(c, s2.outputs, s', e.to, ItemsOn(f, v, false));
    FirstIsOut(c, s2, v, e.from, e.to, f);
  }

  lemma SameCounts(s: State, k: nat, v: Json, s2: State)
    requires k < |s.tasks| && Succeeds(s, k, v, s2)
    ensures s2.counts == s.counts
  {
  }

  lemma FirstIsOut(c: Config, s: State, v: Json, n: NodeId, x: NodeId, f: Edge)
    requires FirstTo(c, s, v, Out(c, n), x, f)
    ensures f in c.graph.edges && f.from == n && f.to == x
  {
    hide Open;
    assert f in Out(c, n);
  }

  // ---- One instance ----

  /** The last instance of a fan-out finishes: the node completes with the array of all reports, and
      its edges start what they start, fanning out nothing. An earlier one starts nothing. */
  lemma InstanceEffect(c: Config, s: State, k: nat, o: Outcome, x: NodeId) returns (s2: State, merged: seq<Json>)
    requires Books(c, s) && ValidGraph(c.graph) && k < |s.tasks| && s.tasks[k].index.Some?
    ensures var n, s' := s.tasks[k].node, Step(c, s, k, o);
      && n in s.fan
      && (s.fan[n].completed + 1 == s.fan[n].expected ==>
            && s2.completed == s.completed + {n} && s2.running == s.running && s2.fan == s.fan - {n}
            && s2.outputs == s.outputs[n := Array(merged)] && s2.failed == s.failed && s2.counts == s.counts
            && |merged| == s.fan[n].expected && FannedIn(n, merged) in s'.log
            && Activations(s2.log, x) == Activations(s.log, x) && EffectOn(c, s2, n, Array(merged), true, s', x))
      && (s.fan[n].completed + 1 != s.fan[n].expected ==>
            && Activations(s'.log, x) == Activations(s.log, x) && s'.completed == s.completed
            && s'.running == s.running && s'.fan.Keys == s.fan.Keys && s'.counts == s.counts)
  {
    hide Books, Step, Downstream, EffectOn, Activations, Distinct, EndpointsExist, DistinctIds, Merged, EmptySlots;
    var t, s1 := s.tasks[k], Taken(s, k, o);
    InstanceHasSlot(c, s, k);
    SlotInRange(s.fan[t.node], t.index.value);
    FillBooks(c, s, k, o);
    StepCases(c, s, k, o);
    var f := Fill(s.fan[t.node], t.index.value, o);
    merged := Merged(f.results);
    s2 := FanInState(s1, t.node, merged);
    LogOfInstance(s.log, Finished(t, o), x);
    if f.completed == f.expected {
      DownstreamEffect(c, s2, t.node, Array(merged), true, x);
      assert s2.log == s1.log + [FannedIn(t.node, merged)] + [Done(t.node)];
      QuietLog(s1.log, FannedIn(t.node, merged), Done(t.node), x);
      DownstreamLog(c, s2, t.node, Array(merged), true, FannedIn(t.node, merged));
    }
  }

  lemma SlotInRange(f: FanOut, i: nat)
    requires i in EmptySlots(f) && FanOutOpen(f)
    ensures i < |f.results| && |f.results| == f.expected
  {
  }

  lemma LogOfInstance(log: seq<Entry>, x: Entry, n: NodeId)
    requires !x.Started?
    ensures Activations(log + [x], n) == Activations(log, n)
  {
    ActivationsConcat(log, [x], n);
    OneActivates(x, n);
  }

  lemma {:induction false} SpawnAllLog(c: Config, s: State, ready: seq<ReadyNode>, x: Entry)
    requires x in s.log
    ensures x in SpawnAll(c, s, ready).log
  {
    hide ResolveInputs;
    if ready != [] {
      SpawnAllLog(c, s, ready[..|ready| - 1], x);
    }
  }

  lemma DownstreamLog(c: Config, s: State, n: NodeId, v: Json, fromFanIn: bool, x: Entry)
    requires x in s.log
    ensures x in Downstream(c, s, n, v, fromFanIn).log
  {
    hide ScanEdges, SpawnAll;
    var a := ScanEdges(c, s, v, fromFanIn, Out(c, n));
    SpawnAllLog(c, s.(counts := a.counts), a.ready, x);
  }

  // ---- One failure ----

  /** Once `n` has failed: the node is not done or running, all its sources are done, and one of
      them completed. */
  ghost predicate CanContinue(c: Config, s: State, n: NodeId, x: NodeId) {
    && x !in s.completed && x !in s.failed && x != n && x !in s.running
    && (exists e :: e in c.graph.edges && e.from == n && e.to == x)
    && (forall e :: e in c.graph.edges && e.to == x ==> e.from in s.completed || e.from in s.failed || e.from == n)
    && (exists e :: e in c.graph.edges && e.to == x && e.from in s.completed)
  }

  lemma {:induction false} ParallelPositive(edges: seq<Edge>, x: NodeId)
    ensures Parallel(edges, x) >= 1 <==> exists e :: e in edges && e.to == x
  {
    if edges != [] {
      ParallelPositive(edges[..|edges| - 1], x);
      assert forall e :: e in edges <==> e in edges[..|edges| - 1] || e == edges[|edges| - 1];
    }
  }

  /** After a failure exactly the targets that can continue get new tasks, one per edge from the
      failed node. */
  lemma FailureEffect(c: Config, s: State, k: nat, error: string, x: NodeId)
    requires k < |s.tasks| && s.tasks[k].index == None
    ensures var n := s.tasks[k].node;
      var s' := Step(c, s, k, Outcome.Failed(error));
      && n in s'.failed && n !in s'.completed - s.completed
      && Tally(s'.tasks, (x, None)) == Tally(s.tasks[..k] + s.tasks[k + 1..], (x, None)) +
         (if CanContinue(c, s, n, x) then Parallel(Out(c, n), x) else 0)
      && (CanContinue(c, s, n, x) ==> Parallel(Out(c, n), x) >= 1)
  {
    hide Step, SpawnAllNormal, ReadyAfterFailure, Tally, Parallel, OutEdges, InEdges;
    var n, o := s.tasks[k].node, Outcome.Failed(error);
    StepCases(c, s, k, o);
    var s2 := FailureState(Taken(s, k, o), n);
    SpawnAllNormalEffect(c, s2, ReadyAfterFailure(c, s2, Out(c, n)));
    StartsAfterFailure(c, s2, Out(c, n), x);
    ParallelPositive(Out(c, n), x);
    RunnableIsContinuing(c, s, s2, n, x);
  }

  lemma RunnableIsContinuing(c: Config, s: State, s2: State, n: NodeId, x: NodeId)
    requires s2.completed == s.completed && s2.failed == s.failed + {n} && s2.running == s.running - {n}
    ensures RunnableAfterFailure(c, s2, x) && (exists e :: e in Out(c, n) && e.to == x) <==> CanContinue(c, s, n, x)
  {
    assert forall e :: e in In(c, x) <==> e in c.graph.edges && e.to == x;
    assert forall e :: e in Out(c, n) <==> e in c.graph.edges && e.from == n;
  }

  // ---- Every start is earned ----

  ghost predicate Succeeded(log: seq<Entry>, n: NodeId) {
    exists i :: 0 <= i < |log| && Result(log[i], n).Some?
  }

  ghost predicate SourceSucceeded(c: Config, log: seq<Entry>, x: NodeId) {
    exists e :: e in c.graph.edges && e.to == x && Succeeded(log, e.from)
  }

  ghost predicate EarnedAt(c: Config, log: seq<Entry>, j: nat)
    requires j < |log|
  {
    log[j].Started? ==>
      j < |BackEdges.EntryNodes(c.graph, c.back)| || SourceSucceeded(c, log[..j], log[j].task.node)
  }

  ghost predicate Earned(c: Config, s: State) {
    && (forall j :: 0 <= j < |s.log| ==> EarnedAt(c, s.log, j))
    && (forall n :: n in s.completed ==> Succeeded(s.log, n))
  }

  lemma SucceededGrows(c: Config, log: seq<Entry>, more: seq<Entry>)
    ensures forall n :: Succeeded(log, n) ==> Succeeded(log + more, n)
    ensures forall x :: SourceSucceeded(c, log, x) ==> SourceSucceeded(c, log + more, x)
  {
    hide Result;
    forall n | Succeeded(log, n) ensures Succeeded(log + more, n) {
      var i :| 0 <= i < |log| && Result(log[i], n).Some?;
      assert (log + more)[i] == log[i];
    }
  }

  lemma EarnedAppend(c: Config, s: State, s': State, more: seq<Entry>)
    requires Earned(c, s) && s'.log == s.log + more && s'.completed <= s.completed
    requires forall x :: x in more && x.Started? ==> SourceSucceeded(c, s.log, x.task.node)
    ensures Earned(c, s')
  {
    hide BackEdges.EntryNodes, Succeeded, SourceSucceeded;
    SucceededGrows(c, s.log, more);
    forall j | 0 <= j < |s'.log| ensures EarnedAt(c, s'.log, j) {
      if j < |s.log| {
        assert s'.log[..j] == s.log[..j] && EarnedAt(c, s.log, j);
      } else {
        assert s'.log[j] in more;
        assert s'.log[..j] == s.log + more[..j - |s.log|];
        SucceededGrows(c, s.log, more[..j - |s.log|]);
      }
    }
  }

  /** Results and other entries that start nothing: what completes has just succeeded. */
  lemma EarnedQuiet(c: Config, s: State, s': State, more: seq<Entry>, n: NodeId)
    requires Earned(c, s) && s'.log == s.log + more && s'.completed <= s.completed + {n}
    requires forall x :: x in more ==> !x.Started?
    requires n in s'.completed && n !in s.completed ==> exists x :: x in more && Result(x, n).Some?
    ensures Earned(c, s')
  {
    hide BackEdges.EntryNodes, Succeeded, SourceSucceeded, Result;
    EarnedAppend(c, s, s'.(completed := s.completed), more);
    SucceededGrows(c, s.log, more);
    if n in s'.completed && n !in s.completed {
      var x :| x in more && Result(x, n).Some?;
      var i :| 0 <= i < |more| && more[i] == x;
      ResultSucceeds(s'.log, |s.log| + i, n);
    }
  }

  lemma ResultSucceeds(log: seq<Entry>, i: nat, n: NodeId)
    requires i < |log| && Result(log[i], n).Some?
    ensures Succeeded(log, n)
  {
  }

  lemma SpawnEarned(c: Config, s: State, r: ReadyNode)
    requires Earned(c, s) && SourceSucceeded(c, s.log, r.node)
    ensures Earned(c, Spawn(c, s, r)) && s.log <= Spawn(c, s, r).log
  {
    hide Earned, SourceSucceeded, ResolveInputs;
    var s' := Spawn(c, s, r);
    match r.items {
      case Some(items) => EarnedAppend(c, s, s', StartEntries(FanOutTasks(r.node, items)));
      case None =>
        var s1 := if r.isCycle then s.(completed := s.completed - {r.node}) else s;
        EarnedAppend(c, s, s', StartEntries([Task(r.node, None, ResolveInputs(c, s1.outputs, r.node))]));
    }
  }

  lemma {:induction false} SpawnAllEarned(c: Config, s: State, ready: seq<ReadyNode>)
    requires Earned(c, s) && forall r :: r in ready ==> SourceSucceeded(c, s.log, r.node)
    ensures Earned(c, SpawnAll(c, s, ready)) && s.log <= SpawnAll(c, s, ready).log
  {
    hide Earned, SourceSucceeded, Spawn;
    if ready != [] {
      var front, r := ready[..|ready| - 1], ready[|ready| - 1];
      SpawnAllEarned(c, s, front);
      var s1 := SpawnAll(c, s, front);
      SucceededGrows(c, s.log, s1.log[|s.log|..]);
      assert s1.log == s.log + s1.log[|s.log|..] && r in ready;
      SpawnEarned(c, s1, r);
    }
  }

  lemma {:induction false} SpawnAllNormalEarned(c: Config, s: State, nodes: seq<NodeId>)
    requires Earned(c, s) && forall n :: n in nodes ==> SourceSucceeded(c, s.log, n)
    ensures Earned(c, SpawnAllNormal(c, s, nodes)) && s.log <= SpawnAllNormal(c, s, nodes).log
  {
    hide Earned, SourceSucceeded, ResolveInputs;
    if nodes != [] {
      var front, n := nodes[..|nodes| - 1], nodes[|nodes| - 1];
      SpawnAllNormalEarned(c, s, front);
      var s1 := SpawnAllNormal(c, s, front);
      SucceededGrows(c, s.log, s1.log[|s.log|..]);
      assert s1.log == s.log + s1.log[|s.log|..] && n in nodes;
      assert Spawn(c, s1, ReadyNode(n, None, false)) == SpawnNormal(c, s1, n);
      SpawnEarned(c, s1, ReadyNode(n, None, false));
    }
  }

  lemma {:induction false} ScanTargets(c: Config, s: State, v: Json, fromFanIn: bool, edges: seq<Edge>)
    ensures forall r :: r in ScanEdges(c, s, v, fromFanIn, edges).ready ==> exists e :: e in edges && e.to == r.node
  {
    hide Passes, Eligible, FanOutItems;
    if edges != [] {
      ScanTargets(c, s, v, fromFanIn, edges[..|edges| - 1]);
      assert forall e :: e in edges <==> e in edges[..|edges| - 1] || e == edges[|edges| - 1];
    }
  }

  lemma DownstreamEarned(c: Config, s: State, n: NodeId, v: Json, fromFanIn: bool)
    requires Earned(c, s) && Succeeded(s.log, n)
    ensures Earned(c, Downstream(c, s, n, v, fromFanIn))
  {
    hide ScanEdges, SpawnAll, Succeeded, EarnedAt, OutEdges;
    var a := ScanEdges(c, s, v, fromFanIn, Out(c, n));
    ScanTargets(c, s, v, fromFanIn, Out(c, n));
    assert Earned(c, s.(counts := a.counts));
    SpawnAllEarned(c, s.(counts := a.counts), a.ready);
  }

  lemma FailureEarned(c: Config, s: State, n: NodeId)
    requires Earned(c, s)
    ensures Earned(c, SpawnAllNormal(c, s, ReadyAfterFailure(c, s, Out(c, n))))
  {
    hide ReadyAfterFailure, SpawnAllNormal, Succeeded, EarnedAt, OutEdges, InEdges;
    var ready := ReadyAfterFailure(c, s, Out(c, n));
    AfterFailureTargets(c, s, Out(c, n));
    forall x | x in ready ensures SourceSucceeded(c, s.log, x) {
      var e :| e in In(c, x) && e.from in s.completed;
    }
    SpawnAllNormalEarned(c, s, ready);
  }

  lemma StepEarned(c: Config, s: State, k: nat, o: Outcome)
    requires Earned(c, s) && k < |s.tasks|
    ensures Earned(c, Step(c, s, k, o))
  {
    hide Step, Merged, Downstream, SpawnAllNormal, ReadyAfterFailure, Fill, Earned, Succeeded;
    StepCases(c, s, k, o);
    var t, s1 := s.tasks[k], Taken(s, k, o);
    EarnedQuiet(c, s, s1, [Finished(t, o)], t.node);
    if t.index.Some? {
      if t.node in s.fan {
        var f := Fill(s.fan[t.node], t.index.value, o);
        var x := FannedIn(t.node, Merged(f.results));
        var s2 := FanInState(s1, t.node, Merged(f.results));
        assert [x, Done(t.node)][0] == x && Result(x, t.node).Some?;
        EarnedQuiet(c, s1, s2, [x, Done(t.node)], t.node);
        ResultSucceeds(s2.log, |s1.log|, t.node);
        DownstreamEarned(c, s2, t.node, Array(Merged(f.results)), true);
        EarnedQuiet(c, s1, s1.(fan := s1.fan[t.node := f]), [], t.node);
      }
    } else if o.Success? {
      var s2 := SuccessState(s1, t.node, o.value);
      assert [Finished(t, o), Done(t.node)][0] == Finished(t, o) && Result(Finished(t, o), t.node).Some?;
      EarnedQuiet(c, s, s2, [Finished(t, o), Done(t.node)], t.node);
      ResultSucceeds(s2.log, |s.log|, t.node);
      DownstreamEarned(c, s2, t.node, o.value, false);
    } else {
      var s2 := FailureState(s1, t.node);
      EarnedQuiet(c, s1, s2, [Done(t.node)], t.node);
      FailureEarned(c, s2, t.node);
    }
  }

  lemma InitEarned(c: Config)
    ensures Earned(c, Init(c))
  {
    hide BackEdges.EntryNodes;
    InitShape(c);
  }

  /** In every run each start, other than those of the entry nodes at the beginning, comes after a
      success of one of the node's sources: a node all of whose sources fail never starts. */
  lemma {:induction false} StartsEarned(c: Config, choices: seq<Choice>)
    ensures Earned(c, Run(c, choices))
  {
    hide Earned, Step, Init;
    if choices == [] {
      InitEarned(c);
    } else {
      var s, ch := Run(c, choices[..|choices| - 1]), choices[|choices| - 1];
      StartsEarned(c, choices[..|choices| - 1]);
      if ch.k < |s.tasks| {
        StepEarned(c, s, ch.k, ch.outcome);
      }
    }
  }
}
