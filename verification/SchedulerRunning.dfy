/** Exactly when the running set tells the truth: failure continuation can break it, and nothing else. */
module SchedulerRunning {
  import opened Common
  import opened Graph
  import opened Scheduler
  import opened SchedulerBooks
  import opened SchedulerBounds

  ghost function RunningDue(s: State, n: NodeId): nat {
    if n in s.running then 1 else 0
  }

  /** One normal task for every running node and no other, and no node is in two of running,
      completed and fan-out. */
  ghost predicate NodeBooks(s: State) {
    && (forall n :: Tally(s.tasks, (n, None)) == RunningDue(s, n))
    && s.running !! s.completed
    && s.running !! s.fan.Keys
    && s.completed !! s.fan.Keys
  }

  // ---- Spawning ----

  lemma SpawnNormalKeeps(c: Config, s: State, n: NodeId)
    requires NodeBooks(s) && n !in s.running && n !in s.completed && n !in s.fan
    ensures NodeBooks(SpawnNormal(c, s, n))
  {
    hide Tally, ResolveInputs;
    var t := Task(n, None, ResolveInputs(c, s.outputs, n));
    forall m ensures Tally(s.tasks + [t], (m, None)) == Tally(s.tasks, (m, None)) + if m == n then 1 else 0 {
      TallyConcat(s.tasks, [t], (m, None));
      TallyOne(t, (m, None));
    }
  }

  lemma SpawnFanOutKeeps(s: State, n: NodeId, items: seq<Json>)
    requires NodeBooks(s) && n !in s.running && n !in s.completed
    ensures NodeBooks(AddTasks(s.(fan := s.fan[n := NewFanOut(|items|)]), FanOutTasks(n, items)))
  {
    hide Tally;
    forall m ensures Tally(s.tasks + FanOutTasks(n, items), (m, None)) == Tally(s.tasks, (m, None)) {
      TallyConcat(s.tasks, FanOutTasks(n, items), (m, None));
      TallyFanOut(n, items, (m, None));
    }
  }

  lemma SpawnKeeps(c: Config, s: State, r: ReadyNode)
    requires NodeBooks(s) && r.node !in s.fan && r.node !in s.running && r.isCycle == (r.node in s.completed)
    ensures NodeBooks(Spawn(c, s, r))
  {
    var s1 := if r.isCycle then s.(completed := s.completed - {r.node}) else s;
    assert NodeBooks(s1);
    hide NodeBooks, Tally;
    match r.items {
      case Some(items) => SpawnFanOutKeeps(s1, r.node, items);
      case None => SpawnNormalKeeps(c, s1, r.node);
    }
  }

  lemma {:induction false} SpawnAllKeeps(c: Config, s: State, ready: seq<ReadyNode>)
    requires NodeBooks(s) && DistinctNodes(ready)
    requires forall r :: r in ready ==> r.node !in s.fan && r.node !in s.running && r.isCycle == (r.node in s.completed)
    ensures NodeBooks(SpawnAll(c, s, ready))
  {
    hide NodeBooks, Spawn;
    if ready != [] {
      var front, r := ready[..|ready| - 1], ready[|ready| - 1];
      SpawnAllKeeps(c, s, front);
      SpawnAllFrame(c, s, front, r.node);
      assert r in ready;
      SpawnKeeps(c, SpawnAll(c, s, front), r);
    }
  }

  lemma DownstreamKeeps(c: Config, s: State, n: NodeId, output: Json, fromFanIn: bool)
    requires Books(c, s) && NodeBooks(s)
    ensures NodeBooks(Downstream(c, s, n, output, fromFanIn))
  {
    hide Tally, ScanEdges, SpawnAll, IsNodeReady, EmptySlots;
    var a := ScanEdges(c, s, output, fromFanIn, Out(c, n));
    ScanReady(c, s, output, fromFanIn, Out(c, n));
    var s1 := s.(counts := a.counts);
    assert NodeBooks(s1);
    forall r | r in a.ready
      ensures r.node !in s1.fan && r.node !in s1.running && r.isCycle == (r.node in s1.completed)
    {
      assert Startable(c, s, r);
    }
    hide NodeBooks, Books;
    SpawnAllKeeps(c, s1, a.ready);
  }

  // ---- Finishing a task ----

  lemma InstanceKeeps(c: Config, s: State, k: nat, o: Outcome, f: FanOut, merged: seq<Json>)
    requires NodeBooks(s) && k < |s.tasks| && s.tasks[k].index.Some? && s.tasks[k].node in s.fan
    ensures NodeBooks(FanInState(Taken(s, k, o), s.tasks[k].node, merged))
    ensures var s1 := Taken(s, k, o); NodeBooks(s1.(fan := s1.fan[s.tasks[k].node := f]))
  {
    hide Tally;
    TakenTally(s, k, o);
    assert forall m :: Tally(Taken(s, k, o).tasks, (m, None)) == Tally(s.tasks, (m, None));
  }

  lemma NormalKeeps(s: State, k: nat, o: Outcome, v: Json)
    requires NodeBooks(s) && k < |s.tasks| && s.tasks[k].index.None?
    ensures NodeBooks(SuccessState(Taken(s, k, o), s.tasks[k].node, v))
    ensures NodeBooks(FailureState(Taken(s, k, o), s.tasks[k].node))
  {
    hide Tally;
    TakenTally(s, k, o);
    var n := s.tasks[k].node;
    assert Tally(s.tasks, (n, None)) == RunningDue(s, n) == 1;
  }

  // ---- Continuing after a failure ----

  /** Every target that is started after the failure has one edge from the failed node and is not
      being fanned out. */
  ghost predicate StartsApart(c: Config, s: State, edges: seq<Edge>) {
    forall n :: RunnableAfterFailure(c, s, n) && Parallel(edges, n) >= 1 ==> Parallel(edges, n) == 1 && n !in s.fan
  }

  lemma {:induction false} ReadyIffParallel(c: Config, s: State, edges: seq<Edge>, n: NodeId)
    ensures n in ReadyAfterFailure(c, s, edges) <==> RunnableAfterFailure(c, s, n) && Parallel(edges, n) >= 1
  {
    hide RunnableAfterFailure;
    if edges != [] {
      ReadyIffParallel(c, s, edges[..|edges| - 1], n);
    }
  }

  ghost function StartsOf(c: Config, s: State, edges: seq<Edge>, n: NodeId): nat {
    if RunnableAfterFailure(c, s, n) then Parallel(edges, n) else 0
  }

  /** What continuing after a failure does to the books of one node. */
  lemma ContinueExact(c: Config, s: State, edges: seq<Edge>)
    requires NodeBooks(s)
    ensures NodeBooks(SpawnAllNormal(c, s, ReadyAfterFailure(c, s, edges))) <==> StartsApart(c, s, edges)
  {
    hide Tally, ReadyAfterFailure, SpawnAllNormal, Parallel;
    var ready := ReadyAfterFailure(c, s, edges);
    var s' := SpawnAllNormal(c, s, ready);
    SpawnAllNormalEffect(c, s, ready);
    forall n
      ensures n in s'.running <==> n in s.running || (RunnableAfterFailure(c, s, n) && Parallel(edges, n) >= 1)
      ensures Tally(s'.tasks, (n, None)) == RunningDue(s, n) + StartsOf(c, s, edges, n)
    {
      ReadyIffParallel(c, s, edges, n);
      StartsAfterFailure(c, s, edges, n);
    }
    ContinueCases(c, s, s', edges);
  }

  lemma ContinueCases(c: Config, s: State, s': State, edges: seq<Edge>)
    requires NodeBooks(s) && s'.completed == s.completed && s'.fan == s.fan
    requires forall n :: n in s'.running <==>
      n in s.running || (RunnableAfterFailure(c, s, n) && Parallel(edges, n) >= 1)
    requires forall n :: Tally(s'.tasks, (n, None)) == RunningDue(s, n) + StartsOf(c, s, edges, n)
    ensures NodeBooks(s') <==> StartsApart(c, s, edges)
  {
    hide Tally, Parallel;
    if NodeBooks(s') {
      forall n | RunnableAfterFailure(c, s, n) && Parallel(edges, n) >= 1
        ensures Parallel(edges, n) == 1 && n !in s.fan
      {
        assert Tally(s'.tasks, (n, None)) == RunningDue(s', n);
      }
    }
  }

  // ---- Whole runs ----

  /** The step is a normal failure after which some target is started twice or while it is fanned out. */
  ghost predicate Breaks(c: Config, s: State, ch: Choice) {
    && ch.k < |s.tasks| && s.tasks[ch.k].index.None? && ch.outcome.Failed?
    && var n := s.tasks[ch.k].node;
       !StartsApart(c, FailureState(Taken(s, ch.k, ch.outcome), n), Out(c, n))
  }

  lemma StepExact(c: Config, s: State, k: nat, o: Outcome)
    requires Books(c, s) && EndpointsExist(c.graph) && NodeBooks(s) && k < |s.tasks|
    ensures NodeBooks(Step(c, s, k, o)) <==> !Breaks(c, s, Choice(k, o))
  {
    StepCases(c, s, k, o);
    hide Books, NodeBooks, Step, Merged, Downstream, SpawnAllNormal, ReadyAfterFailure, Fill, StartsApart, Tally;
    var t, s1 := s.tasks[k], Taken(s, k, o);
    if t.index.Some? {
      FillBooks(c, s, k, o);
      var f := Fill(s.fan[t.node], t.index.value, o);
      InstanceKeeps(c, s, k, o, f, Merged(f.results));
      if f.completed == f.expected {
        DownstreamKeeps(c, FanInState(s1, t.node, Merged(f.results)), t.node, Array(Merged(f.results)), true);
      }
    } else if o.Success? {
      NormalBooks(c, s, k, o, o.value);
      NormalKeeps(s, k, o, o.value);
      DownstreamKeeps(c, SuccessState(s1, t.node, o.value), t.node, o.value, false);
    } else {
      NormalKeeps(s, k, o, Null);
      ContinueExact(c, FailureState(s1, t.node), Out(c, t.node));
    }
  }

  lemma InitKeeps(c: Config)
    requires Distinct(c.graph.nodes)
    ensures NodeBooks(Init(c))
  {
    hide Tally, Init;
    InitShape(c);
    forall n ensures Tally(Init(c).tasks, (n, None)) == RunningDue(Init(c), n) {
      InitTally(c, (n, None));
    }
  }

  /** With nothing running and nothing fanned out, nothing is in flight. */
  lemma NothingInFlight(c: Config, s: State)
    requires Books(c, s) && NodeBooks(s) && s.running == {} && s.fan == map[]
    ensures s.tasks == []
  {
    hide EmptySlots, Tally;
    assert forall n :: Tally(s.tasks, (n, None)) == RunningDue(s, n) == 0;
    assert forall n, i :: Tally(s.tasks, (n, Some(i))) == InstanceDue(s.fan, n, i) == 0;
    assert forall key: Key :: key.1.None? || key == (key.0, Some(key.1.value));
    if s.tasks != [] {
      TallyMember(s.tasks, s.tasks[0]);
    }
  }

  ghost predicate AlwaysTrue(c: Config, choices: seq<Choice>) {
    forall k :: 0 <= k <= |choices| ==> NodeBooks(Run(c, choices[..k]))
  }

  ghost predicate NeverBreaks(c: Config, choices: seq<Choice>) {
    forall k :: 0 <= k < |choices| ==> !Breaks(c, Run(c, choices[..k]), choices[k])
  }

  lemma SplitLast(c: Config, choices: seq<Choice>)
    requires choices != []
    ensures var n := |choices| - 1; var before := choices[..n];
      && (AlwaysTrue(c, choices) <==> AlwaysTrue(c, before) && NodeBooks(Run(c, choices)))
      && (NeverBreaks(c, choices) <==> NeverBreaks(c, before) && !Breaks(c, Run(c, before), choices[n]))
      && (AlwaysTrue(c, before) ==> NodeBooks(Run(c, before)))
  {
    hide Run, NodeBooks, Breaks;
    var n := |choices| - 1;
    var before := choices[..n];
    assert choices[..|choices|] == choices && before[..n] == before;
    assert forall k :: 0 <= k <= n ==> before[..k] == choices[..k];
    if AlwaysTrue(c, choices) {
      forall k | 0 <= k <= n ensures NodeBooks(Run(c, before[..k])) {
        assert NodeBooks(Run(c, choices[..k]));
      }
    }
    if NeverBreaks(c, choices) {
      forall k | 0 <= k < n ensures !Breaks(c, Run(c, before[..k]), before[k]) {
        assert !Breaks(c, Run(c, choices[..k]), choices[k]);
      }
    }
  }

  /** The books of running nodes hold at every moment of a run if and only if no failure in it
      starts a target twice or one that is being fanned out. */
  lemma {:induction false} RunningExact(c: Config, choices: seq<Choice>)
    requires ValidGraph(c.graph)
    ensures AlwaysTrue(c, choices) <==> NeverBreaks(c, choices)
  {
    hide Books, NodeBooks, Step, Init, Breaks, AlwaysTrue, NeverBreaks;
    if choices == [] {
      InitKeeps(c);
      EmptyRun(c);
    } else {
      var before, ch := choices[..|choices| - 1], choices[|choices| - 1];
      RunningExact(c, before);
      RunBooks(c, before);
      SplitLast(c, choices);
      if NodeBooks(Run(c, before)) {
        if ch.k < |Run(c, before).tasks| {
          StepExact(c, Run(c, before), ch.k, ch.outcome);
        } else {
          IdleChoice(c, Run(c, before), ch);
        }
      }
    }
  }

  lemma EmptyRun(c: Config)
    ensures AlwaysTrue(c, []) <==> NodeBooks(Init(c))
    ensures NeverBreaks(c, [])
  {
    hide NodeBooks, Init;
    var none: seq<Choice> := [];
    assert none[..0] == none;
  }

  lemma IdleChoice(c: Config, s: State, ch: Choice)
    requires ch.k >= |s.tasks|
    ensures !Breaks(c, s, ch)
  {
  }

  /** Unless such a failure has happened, a node runs exactly when one normal task of it is in
      flight, and is never also completed or fanned out. */
  lemma RunningNodes(c: Config, choices: seq<Choice>, n: NodeId)
    requires ValidGraph(c.graph) && NeverBreaks(c, choices)
    ensures var s := Run(c, choices);
      && (n in s.running <==> Tally(s.tasks, (n, None)) == 1)
      && (n !in s.running <==> Tally(s.tasks, (n, None)) == 0)
      && (n in s.running ==> n !in s.completed && n !in s.fan)
      && (n in s.completed ==> n !in s.fan)
  {
    hide Run, Tally, NeverBreaks;
    RunningExact(c, choices);
    assert choices[..|choices|] == choices;
    assert NodeBooks(Run(c, choices));
  }

  /** In particular while no normal task has failed. */
  lemma {:induction false} NoFailureNeverBreaks(c: Config, choices: seq<Choice>)
    requires Run(c, choices).failed == {}
    ensures NeverBreaks(c, choices)
  {
    hide Step, StartsApart, NeverBreaks;
    if choices == [] {
      EmptyRun(c);
    } else {
      var before, ch := choices[..|choices| - 1], choices[|choices| - 1];
      if ch.k < |Run(c, before).tasks| {
        FailedGrows(c, Run(c, before), ch.k, ch.outcome);
      }
      NoFailureNeverBreaks(c, before);
      SplitLast(c, choices);
    }
  }
}
