/** What the history of every run looks like: order of starts, blocked nodes, termination. */
module SchedulerHistory {
  import opened Common
  import opened Graph
  import BackEdges
  import opened Scheduler
  import opened SchedulerBooks

  // ---- The history is well ordered ----

  ghost predicate SourcesFinished(c: Config, log: seq<Entry>, n: NodeId) {
    forall e :: e in c.graph.edges && e.to == n && e.id !in c.back ==> Done(e.from) in log
  }

  ghost predicate WasStarted(log: seq<Entry>, n: NodeId) {
    exists t :: Started(t) in log && t.node == n
  }

  /** An entry is justified by the entries before it. */
  ghost predicate Justified(c: Config, before: seq<Entry>, x: Entry) {
    match x
    case Started(t) => SourcesFinished(c, before, t.node)
    case Finished(t, _) => Started(t) in before
    case FannedIn(n, _) => WasStarted(before, n)
    case Done(n) => WasStarted(before, n)
  }

  ghost predicate Ordered(c: Config, log: seq<Entry>) {
    forall j :: 0 <= j < |log| ==> Justified(c, log[..j], log[j])
  }

  ghost predicate History(c: Config, s: State) {
    && Ordered(c, s.log)
    && (forall t :: t in s.tasks ==> Started(t) in s.log)
    && (forall n :: n in s.completed || n in s.failed ==> Done(n) in s.log)
  }

  lemma OrderedAppend(c: Config, log: seq<Entry>, x: Entry)
    requires Ordered(c, log) && Justified(c, log, x)
    ensures Ordered(c, log + [x])
  {
    hide Justified;
    var longer := log + [x];
    forall j | 0 <= j < |longer| ensures Justified(c, longer[..j], longer[j]) {
      assert longer[..j] == if j < |log| then log[..j] else log;
    }
  }

  lemma {:induction false} OrderedStarts(c: Config, log: seq<Entry>, tasks: seq<Task>)
    requires Ordered(c, log) && forall t :: t in tasks ==> SourcesFinished(c, log, t.node)
    ensures Ordered(c, log + StartEntries(tasks))
  {
    hide Ordered;
    if tasks == [] {
      assert log + StartEntries(tasks) == log;
    } else {
      var front, t := tasks[..|tasks| - 1], tasks[|tasks| - 1];
      OrderedStarts(c, log, front);
      assert SourcesFinished(c, log, t.node);
      assert SourcesFinished(c, log + StartEntries(front), t.node);
      OrderedAppend(c, log + StartEntries(front), Started(t));
      assert StartEntries(tasks) == StartEntries(front) + [Started(t)];
      assert log + StartEntries(front) + [Started(t)] == log + StartEntries(tasks);
    }
  }

  lemma AddTasksHistory(c: Config, s: State, tasks: seq<Task>)
    requires History(c, s) && forall t :: t in tasks ==> SourcesFinished(c, s.log, t.node)
    ensures History(c, AddTasks(s, tasks))
  {
    hide Ordered, SourcesFinished;
    OrderedStarts(c, s.log, tasks);
    forall t | t in tasks ensures Started(t) in StartEntries(tasks) {
      var i :| 0 <= i < |tasks| && tasks[i] == t;
      assert StartEntries(tasks)[i] == Started(t);
    }
  }

  lemma SpawnHistory(c: Config, s: State, r: ReadyNode)
    requires History(c, s) && SourcesFinished(c, s.log, r.node)
    ensures History(c, Spawn(c, s, r)) && s.log <= Spawn(c, s, r).log
  {
    hide Ordered, SourcesFinished, ResolveInputs;
    var s1 := if r.isCycle then s.(completed := s.completed - {r.node}) else s;
    match r.items {
      case Some(items) =>
        AddTasksHistory(c, s1.(fan := s1.fan[r.node := NewFanOut(|items|)]), FanOutTasks(r.node, items));
      case None =>
        AddTasksHistory(c, s1.(running := s1.running + {r.node}),
                        [Task(r.node, None, ResolveInputs(c, s1.outputs, r.node))]);
    }
  }

  lemma {:induction false} SpawnAllHistory(c: Config, s: State, ready: seq<ReadyNode>)
    requires History(c, s) && forall r :: r in ready ==> SourcesFinished(c, s.log, r.node)
    ensures History(c, SpawnAll(c, s, ready)) && s.log <= SpawnAll(c, s, ready).log
  {
    hide History, Spawn;
    if ready != [] {
      var front, r := ready[..|ready| - 1], ready[|ready| - 1];
      SpawnAllHistory(c, s, front);
      assert SourcesFinished(c, s.log, r.node);
      SpawnHistory(c, SpawnAll(c, s, front), r);
    }
  }

  lemma {:induction false} SpawnAllNormalHistory(c: Config, s: State, nodes: seq<NodeId>)
    requires History(c, s) && forall n :: n in nodes ==> SourcesFinished(c, s.log, n)
    ensures History(c, SpawnAllNormal(c, s, nodes)) && s.log <= SpawnAllNormal(c, s, nodes).log
  {
    hide History, ResolveInputs;
    if nodes != [] {
      var front, n := nodes[..|nodes| - 1], nodes[|nodes| - 1];
      SpawnAllNormalHistory(c, s, front);
      assert SourcesFinished(c, s.log, n);
      var s1 := SpawnAllNormal(c, s, front);
      assert Spawn(c, s1, ReadyNode(n, None, false)) == SpawnNormal(c, s1, n);
      SpawnHistory(c, s1, ReadyNode(n, None, false));
    }
  }

  lemma StartableSources(c: Config, s: State, r: ReadyNode)
    requires History(c, s) && Startable(c, s, r)
    ensures SourcesFinished(c, s.log, r.node)
  {
  }

  lemma DownstreamHistory(c: Config, s: State, n: NodeId, output: Json, fromFanIn: bool)
    requires History(c, s)
    ensures History(c, Downstream(c, s, n, output, fromFanIn))
  {
    hide Ordered, ScanEdges, SpawnAll, Startable;
    var a := ScanEdges(c, s, output, fromFanIn, Out(c, n));
    ScanReady(c, s, output, fromFanIn, Out(c, n));
    forall r | r in a.ready ensures SourcesFinished(c, s.log, r.node) {
      StartableSources(c, s, r);
    }
    SpawnAllHistory(c, s.(counts := a.counts), a.ready);
  }

  lemma TakenHistory(c: Config, s: State, k: nat, o: Outcome, v: Json, merged: seq<Json>)
    requires History(c, s) && k < |s.tasks|
    ensures var n, s1 := s.tasks[k].node, Taken(s, k, o);
      && History(c, s1) && History(c, FanInState(s1, n, merged))
      && History(c, SuccessState(s1, n, v)) && History(c, FailureState(s1, n))
  {
    hide Ordered;
    var t, s1 := s.tasks[k], Taken(s, k, o);
    assert Started(t) in s.log;
    OrderedAppend(c, s.log, Finished(t, o));
    assert Started(t) in s1.log;
    OrderedAppend(c, s1.log, Done(t.node));
    OrderedAppend(c, s1.log, FannedIn(t.node, merged));
    OrderedAppend(c, s1.log + [FannedIn(t.node, merged)], Done(t.node));
    assert s1.log + [FannedIn(t.node, merged)] + [Done(t.node)] == s1.log + [FannedIn(t.node, merged), Done(t.node)];
  }

  lemma StepHistory(c: Config, s: State, k: nat, o: Outcome)
    requires History(c, s) && k < |s.tasks|
    ensures History(c, Step(c, s, k, o))
  {
    StepCases(c, s, k, o);
    hide Step, Merged, Downstream, SpawnAllNormal, ReadyAfterFailure, Fill, Ordered, SourcesFinished;
    var t, s1 := s.tasks[k], Taken(s, k, o);
    if t.index.Some? {
      if t.node in s.fan {
        var merged := Merged(Fill(s.fan[t.node], t.index.value, o).results);
        TakenHistory(c, s, k, o, Null, merged);
        DownstreamHistory(c, FanInState(s1, t.node, merged), t.node, Array(merged), true);
      } else {
        TakenHistory(c, s, k, o, Null, []);
      }
    } else if o.Success? {
      TakenHistory(c, s, k, o, o.value, []);
      DownstreamHistory(c, SuccessState(s1, t.node, o.value), t.node, o.value, false);
    } else {
      TakenHistory(c, s, k, o, Null, []);
      FailureHistory(c, FailureState(s1, t.node), t.node);
    }
  }

  lemma FailureHistory(c: Config, s: State, n: NodeId)
    requires History(c, s)
    ensures History(c, SpawnAllNormal(c, s, ReadyAfterFailure(c, s, Out(c, n))))
  {
    hide Ordered, ReadyAfterFailure, SpawnAllNormal;
    var ready := ReadyAfterFailure(c, s, Out(c, n));
    AfterFailureTargets(c, s, Out(c, n));
    forall m | m in ready ensures SourcesFinished(c, s.log, m) {
      assert RunnableAfterFailure(c, s, m);
    }
    SpawnAllNormalHistory(c, s, ready);
  }

  lemma InitHistory(c: Config)
    ensures History(c, Init(c))
  {
    var entries := BackEdges.EntryNodes(c.graph, c.back);
    var empty := State({}, {}, Elements(entries), map n | n in entries :: c.inputs, map[], map[], [], []);
    forall t | t in EntryTasks(c, entries) ensures SourcesFinished(c, [], t.node) {
      assert t.node in entries;
    }
    AddTasksHistory(c, empty, EntryTasks(c, entries));
  }

  /** In every run a node starts only after every source of its forward edges is done:
      starts extend the order the back-edge search leaves behind. */
  lemma {:induction false} RunOrdered(c: Config, choices: seq<Choice>)
    ensures History(c, Run(c, choices))
  {
    hide History, Step, Init;
    if choices == [] {
      InitHistory(c);
    } else {
      RunOrdered(c, choices[..|choices| - 1]);
      var s, ch := Run(c, choices[..|choices| - 1]), choices[|choices| - 1];
      if ch.k < |s.tasks| {
        StepHistory(c, s, ch.k, ch.outcome);
      }
    }
  }

  // ---- Nodes that wait for each other never start ----

  ghost predicate WaitsWithin(c: Config, u: set<NodeId>, n: NodeId) {
    exists e :: e in c.graph.edges && e.to == n && e.id !in c.back && e.from in u
  }

  lemma {:induction false} WaitingNeverStarts(c: Config, log: seq<Entry>, u: set<NodeId>, j: nat)
    requires Ordered(c, log) && forall n {:trigger WaitsWithin(c, u, n)} :: n in u ==> WaitsWithin(c, u, n)
    requires j < |log| && log[j].Started?
    ensures log[j].task.node !in u
    decreases j
  {
    hide Ordered;
    var n := log[j].task.node;
    if n in u {
      assert WaitsWithin(c, u, n);
      var e :| e in c.graph.edges && e.to == n && e.id !in c.back && e.from in u;
      var i := EarlierStart(c, log, j, e);
      WaitingNeverStarts(c, log, u, i);
    }
  }

  lemma EarlierStart(c: Config, log: seq<Entry>, j: nat, e: Edge) returns (i: nat)
    requires Ordered(c, log) && j < |log| && log[j].Started?
    requires e in c.graph.edges && e.to == log[j].task.node && e.id !in c.back
    ensures i < j && log[i].Started? && log[i].task.node == e.from
  {
    assert Justified(c, log[..j], log[j]);
    var d :| 0 <= d < j && log[d] == Done(e.from);
    assert Justified(c, log[..d], log[d]);
    var t :| Started(t) in log[..d] && t.node == e.from;
    i :| 0 <= i < d && log[i] == Started(t);
  }

  /** A node the back-edge search does not reach never starts, in any run. */
  lemma UnreachedNeverStart(c: Config, order: seq<NodeId>, choices: seq<Choice>, t: Task)
    requires ValidGraph(c.graph) && BackEdges.Analysed(c.graph, c.back, order)
    requires Started(t) in Run(c, choices).log
    ensures t.node in c.graph.nodes ==> t.node in order
  {
    RunOrdered(c, choices);
    hide Run;
    var log := Run(c, choices).log;
    var u := set n | n in c.graph.nodes && n !in order;
    forall n | n in u ensures WaitsWithin(c, u, n) {
      UnreachedWaits(c, order, u, n);
    }
    var j :| 0 <= j < |log| && log[j] == Started(t);
    WaitingNeverStarts(c, log, u, j);
  }

  lemma UnreachedWaits(c: Config, order: seq<NodeId>, u: set<NodeId>, n: NodeId)
    requires ValidGraph(c.graph) && BackEdges.Analysed(c.graph, c.back, order)
    requires u == (set n | n in c.graph.nodes && n !in order) && n in u
    ensures WaitsWithin(c, u, n)
  {
    BackEdges.MissedPredecessor(c.graph, c.back, order, n);
    var e :| e in c.graph.edges && e.to == n && e.from !in order;
  }

  /** Deadlock detection: a graph with a node the search does not reach (a cycle cut off from
      every start node) makes every run that is not cancelled end as Failed. */
  lemma UnreachedMeansFailed(c: Config, order: seq<NodeId>, choices: seq<Choice>, n: NodeId)
    requires ValidGraph(c.graph) && BackEdges.Analysed(c.graph, c.back, order)
    requires n in c.graph.nodes && n !in order
    requires Run(c, choices).tasks == []
    ensures FinalStatus(c, Run(c, choices), false) == RunStatus.Failed
  {
    hide Run, FinalStatus;
    FinalStatusExact(c, choices);
    RunOrdered(c, choices);
    var s := Run(c, choices);
    if n in s.completed {
      var j :| 0 <= j < |s.log| && s.log[j] == Done(n);
      assert Justified(c, s.log[..j], s.log[j]);
      var t :| Started(t) in s.log[..j] && t.node == n;
      UnreachedNeverStart(c, order, choices, t);
    }
  }
}
