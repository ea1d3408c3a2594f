/** execute_run as it is written: one loop over mutable sets and maps. Each operation is proved
    against the state machine, so everything proved of runs holds of the executor. */
module Executor {
  import opened Common
  import opened Graph
  import BackEdges
  import opened Scheduler
  import opened SchedulerBooks
  import opened SchedulerBounds

  lemma ExecutorEntries(graph: Graph, back: set<EdgeId>, order: seq<NodeId>)
    requires ValidGraph(graph) && BackEdges.Analysed(graph, back, order)
    ensures BackEdges.EntryNodes(graph, back) != []
  {
    hide BackEdges.Analysed, BackEdges.EntryNodes, Distinct, DistinctIds, EndpointsExist;
    BackEdges.EntryNodesExist(graph, back, order);
  }

  /** The state every run starts in, spelled out. */
  lemma RunStarts(c: Config)
    ensures var entries := BackEdges.EntryNodes(c.graph, c.back);
      var tasks := EntryTasks(c, entries);
      Run(c, []) ==
      State({}, {}, Elements(entries), map n | n in entries :: c.inputs, map[], map[], tasks, StartEntries(tasks))
  {
    hide BackEdges.EntryNodes, EntryTasks, StartEntries, Elements;
    var tasks := EntryTasks(c, BackEdges.EntryNodes(c.graph, c.back));
    assert [] + tasks == tasks && [] + StartEntries(tasks) == StartEntries(tasks);
  }

  /** What scanning one edge does, by cases. */
  lemma ScanEdgeCases(c: Config, s: State, output: Json, fromFanIn: bool, a: Scan, e: Edge)
    ensures var count := Count(a.counts, e.id);
      var passed := Condition(e, output) && count < c.maxTraversals;
      var counts := a.counts[e.id := if passed then count + 1 else count];
      var next := ReadyNode(e.to, FanOutItems(output, e, fromFanIn), e.to in s.completed);
      && (!passed || e.to in a.seen ==> ScanEdge(c, s, output, fromFanIn, a, e) == Scan(counts, a.seen, a.ready))
      && (passed && e.to !in a.seen ==>
            ScanEdge(c, s, output, fromFanIn, a, e) ==
            Scan(counts, a.seen + {e.to}, if Eligible(c, s, counts, e.to) then a.ready + [next] else a.ready))
  {
    hide Condition, Eligible, FanOutItems;
  }

  class Executor {
    const cfg: Config
    var completed: set<NodeId>
    var failed: set<NodeId>
    var runningSet: set<NodeId>
    var nodeOutputs: map<NodeId, Json>
    var edgeTraversalCounts: map<EdgeId, nat>
    var fanOutStates: map<NodeId, FanOut>
    var running: seq<Task>
    ghost var log: seq<Entry>
    ghost var choices: seq<Choice>

    ghost function Abs(): State
      reads this
    {
      State(completed, failed, runningSet, nodeOutputs, edgeTraversalCounts, fanOutStates, running, log)
    }

    /** The executor is in a state of some run. */
    ghost predicate Valid()
      reads this
    {
      ValidGraph(cfg.graph) && Abs() == Run(cfg, choices)
    }

    constructor (graph: Graph, inputs: Json, maxTraversals: nat)
      requires ValidGraph(graph)
      ensures Valid() && cfg.graph == graph && cfg.inputs == inputs && cfg.maxTraversals == maxTraversals
      ensures cfg.back == BackEdges.BackEdgesOf(graph) && exists order :: BackEdges.Analysed(graph, cfg.back, order)
      ensures running != []
    {
      hide BackEdges.Analysed, BackEdges.EntryNodes, BackEdges.CutsEveryCycle, BackEdges.BackEdgesOf;
      hide ValidGraph, Run, Elements, EntryTasks, StartEntries;
      var back, order := BackEdges.FindBackEdges(graph);
      ExecutorEntries(graph, back, order);
      var entries := BackEdges.EntryNodes(graph, back);
      cfg := Config(graph, inputs, maxTraversals, back);
      completed, failed, fanOutStates, edgeTraversalCounts := {}, {}, map[], map[];
      nodeOutputs := map n | n in entries :: inputs;
      runningSet := Elements(entries);
      var c := Config(graph, inputs, maxTraversals, back);
      running := EntryTasks(c, entries);
      log := StartEntries(EntryTasks(c, entries));
      choices := [];
      RunStarts(c);
      new;
    }

    /** All forward sources done and one of them satisfied, by a single pass over the edges. */
    method CheckReady(n: NodeId) returns (ready: bool)
      ensures ready == IsNodeReady(cfg, Abs(), edgeTraversalCounts, n)
    {
      hide Condition;
      var edges := In(cfg, n);
      if edges == [] {
        return true;
      }
      ready := false;
      for i := 0 to |edges|
        invariant forall j :: 0 <= j < i && edges[j].id !in cfg.back ==> SourceDone(Abs(), edges[j])
        invariant ready <==>
          exists j :: 0 <= j < i && edges[j].id !in cfg.back && EdgeSatisfied(cfg, Abs(), edgeTraversalCounts, edges[j])
      {
        var e := edges[i];
        if e.id !in cfg.back {
          if e.from !in completed && e.from !in failed {
            assert e in edges && !SourceDone(Abs(), e);
            return false;
          }
          if e.from in completed && e.from in nodeOutputs
             && Condition(e, nodeOutputs[e.from]) && Count(edgeTraversalCounts, e.id) <= cfg.maxTraversals
          {
            ready := true;
          }
        }
      }
    }

    /** Readiness reads nothing of the state but what is done and its outputs. */
    lemma ReadyAbs(s: State, n: NodeId)
      requires Abs() == s.(counts := edgeTraversalCounts)
      ensures IsNodeReady(cfg, Abs(), edgeTraversalCounts, n) == IsNodeReady(cfg, s, edgeTraversalCounts, n)
    {
    }

    /** Whether the target of a passing edge is to be started. */
    method CheckEligible(n: NodeId, ghost s: State) returns (eligible: bool)
      requires Abs() == s.(counts := edgeTraversalCounts)
      ensures eligible == Eligible(cfg, s, edgeTraversalCounts, n)
    {
      hide IsNodeReady;
      if n in fanOutStates && fanOutStates[n].completed < fanOutStates[n].expected {
        return false;
      }
      if n in runningSet {
        return false;
      }
      if n in completed {
        return true;
      }
      var ready := CheckReady(n);
      ReadyAbs(s, n);
      eligible := n !in failed && ready;
    }

    /** One edge: evaluate its condition, count a traversal within the limit, collect its target. */
    method EvaluateEdge(e: Edge, output: Json, fromFanIn: bool, ghost s: State, seen0: set<NodeId>,
                        ready0: seq<ReadyNode>)
      returns (seen: set<NodeId>, ready: seq<ReadyNode>)
      requires Abs() == s.(counts := edgeTraversalCounts)
      modifies `edgeTraversalCounts
      ensures Scan(edgeTraversalCounts, seen, ready) ==
        ScanEdge(cfg, s, output, fromFanIn, Scan(old(edgeTraversalCounts), seen0, ready0), e)
    {
      hide Condition, Eligible, FanOutItems, ScanEdge, Passes;
      ScanEdgeCases(cfg, s, output, fromFanIn, Scan(edgeTraversalCounts, seen0, ready0), e);
      seen, ready := seen0, ready0;
      var count := Count(edgeTraversalCounts, e.id);
      var passed := Condition(e, output) && count < cfg.maxTraversals;
      edgeTraversalCounts := edgeTraversalCounts[e.id := if passed then count + 1 else count];
      if passed && e.to !in seen {
        seen := seen + {e.to};
        var eligible := CheckEligible(e.to, s);
        if eligible {
          ready := ready + [ReadyNode(e.to, FanOutItems(output, e, fromFanIn), e.to in completed)];
        }
      }
    }

    /** Evaluate the outgoing edges of a node that is done and collect what became ready. */
    method EvaluateEdgesAndFindReady(n: NodeId, output: Json, fromFanIn: bool) returns (ready: seq<ReadyNode>)
      modifies `edgeTraversalCounts
      ensures var a := ScanEdges(cfg, old(Abs()), output, fromFanIn, Out(cfg, n));
        Abs() == old(Abs()).(counts := a.counts) && ready == a.ready
    {
      hide ScanEdge;
      var edges := Out(cfg, n);
      var seen: set<NodeId> := {};
      ready := [];
      for i := 0 to |edges|
        invariant Abs() == old(Abs()).(counts := edgeTraversalCounts)
        invariant Scan(edgeTraversalCounts, seen, ready) == ScanEdges(cfg, old(Abs()), output, fromFanIn, edges[..i])
      {
        assert edges[..i + 1][..i] == edges[..i];
        seen, ready := EvaluateEdge(edges[i], output, fromFanIn, old(Abs()), seen, ready);
      }
      assert edges[..|edges|] == edges;
    }

    method StartTasks(tasks: seq<Task>)
      modifies `running, `log
      ensures Abs() == AddTasks(old(Abs()), tasks)
    {
      running := running + tasks;
      log := log + StartEntries(tasks);
    }

    method SpawnReadyNodes(ready: seq<ReadyNode>)
      modifies `completed, `fanOutStates, `runningSet, `running, `log
      ensures Abs() == SpawnAll(cfg, old(Abs()), ready)
    {
      hide ResolveInputs;
      for i := 0 to |ready|
        invariant Abs() == SpawnAll(cfg, old(Abs()), ready[..i])
      {
        var r := ready[i];
        assert ready[..i + 1][..i] == ready[..i];
        if r.isCycle {
          completed := completed - {r.node};
        }
        match r.items {
          case Some(items) =>
            fanOutStates := fanOutStates[r.node := NewFanOut(|items|)];
            StartTasks(FanOutTasks(r.node, items));
          case None =>
            runningSet := runningSet + {r.node};
            StartTasks([Task(r.node, None, ResolveInputs(cfg, nodeOutputs, r.node))]);
        }
      }
      assert ready[..|ready|] == ready;
    }

    /** After a failure: targets whose sources are all done, one of them completed. */
    method FindReadyAfterFailure(n: NodeId) returns (ready: seq<NodeId>)
      ensures ready == ReadyAfterFailure(cfg, Abs(), Out(cfg, n))
    {
      var edges := Out(cfg, n);
      ready := [];
      for i := 0 to |edges|
        invariant ready == ReadyAfterFailure(cfg, Abs(), edges[..i])
      {
        var target := edges[i].to;
        assert edges[..i + 1][..i] == edges[..i];
        if target !in completed && target !in failed && target !in runningSet {
          var incoming := In(cfg, target);
          if (forall e :: e in incoming ==> e.from in completed || e.from in failed)
             && (exists e :: e in incoming && e.from in completed)
          {
            ready := ready + [target];
          }
        }
      }
      assert edges[..|edges|] == edges;
    }

    method SpawnAfterFailure(nodes: seq<NodeId>)
      modifies `runningSet, `running, `log
      ensures Abs() == SpawnAllNormal(cfg, old(Abs()), nodes)
    {
      hide ResolveInputs;
      for i := 0 to |nodes|
        invariant Abs() == SpawnAllNormal(cfg, old(Abs()), nodes[..i])
      {
        assert nodes[..i + 1][..i] == nodes[..i];
        var task := Task(nodes[i], None, ResolveInputs(cfg, nodeOutputs, nodes[i]));
        runningSet := runningSet + {nodes[i]};
        StartTasks([task]);
      }
      assert nodes[..|nodes|] == nodes;
    }

    /** A fan-out instance is done: fill its slot; when it was the last, merge and return the array. */
    method HandleFanOutCompletion(t: Task, index: nat, o: Outcome) returns (merged: Option<seq<Json>>)
      modifies `fanOutStates, `completed, `nodeOutputs, `log
      ensures t.node !in old(fanOutStates) ==> Abs() == old(Abs()) && merged == None
      ensures t.node in old(fanOutStates) ==>
        var s, f := old(Abs()), Fill(old(fanOutStates)[t.node], index, o);
        if f.completed == f.expected
        then merged == Some(Merged(f.results)) && Abs() == FanInState(s, t.node, Merged(f.results))
        else merged == None && Abs() == s.(fan := s.fan[t.node := f])
    {
      if t.node !in fanOutStates {
        return None;
      }
      var f := Fill(fanOutStates[t.node], index, o);
      if f.completed == f.expected {
        var results := Merged(f.results);
        completed := completed + {t.node};
        nodeOutputs := nodeOutputs[t.node := Array(results)];
        fanOutStates := fanOutStates - {t.node};
        log := log + [FannedIn(t.node, results), Done(t.node)];
        merged := Some(results);
      } else {
        fanOutStates := fanOutStates[t.node := f];
        merged := None;
      }
    }

    method EvaluateDownstream(n: NodeId, output: Json, fromFanIn: bool)
      modifies this
      ensures Abs() == Downstream(cfg, old(Abs()), n, output, fromFanIn) && choices == old(choices)
    {
      hide ScanEdges, SpawnAll;
      var ready := EvaluateEdgesAndFindReady(n, output, fromFanIn);
      SpawnReadyNodes(ready);
    }

    /** The body of the loop: task `k` has finished with outcome `o`. */
    method FinishTask(k: nat, o: Outcome)
      requires k < |running|
      modifies this
      ensures Abs() == Step(cfg, old(Abs()), k, o) && choices == old(choices)
    {
      hide Step, Downstream, Merged, Fill, SpawnAllNormal, ReadyAfterFailure, SuccessState, FailureState, FanInState;
      StepCases(cfg, Abs(), k, o);
      var t := running[k];
      running := running[..k] + running[k + 1..];
      log := log + [Finished(t, o)];
      assert Abs() == Taken(old(Abs()), k, o);
      match t.index {
        case Some(i) => FinishInstance(t, i, o);
        case None =>
          match o {
            case Success(v) => FinishSuccess(t.node, v);
            case Failed(_) => FinishFailure(t.node);
          }
      }
    }

    method FinishInstance(t: Task, i: nat, o: Outcome)
      modifies this
      ensures choices == old(choices)
      ensures t.node !in old(fanOutStates) ==> Abs() == old(Abs())
      ensures t.node in old(fanOutStates) ==>
        var s, f := old(Abs()), Fill(old(fanOutStates)[t.node], i, o);
        Abs() == if f.completed == f.expected
                 then Downstream(cfg, FanInState(s, t.node, Merged(f.results)), t.node, Array(Merged(f.results)), true)
                 else s.(fan := s.fan[t.node := f])
    {
      hide Downstream, Merged, Fill, FanInState;
      var merged := HandleFanOutCompletion(t, i, o);
      if merged.Some? {
        EvaluateDownstream(t.node, Array(merged.value), true);
      }
    }

    method FinishSuccess(n: NodeId, v: Json)
      modifies this
      ensures choices == old(choices)
      ensures Abs() == Downstream(cfg, SuccessState(old(Abs()), n, v), n, v, false)
    {
      hide Downstream;
      runningSet := runningSet - {n};
      log := log + [Done(n)];
      completed := completed + {n};
      nodeOutputs := nodeOutputs[n := v];
      EvaluateDownstream(n, v, false);
    }

    method FinishFailure(n: NodeId)
      modifies this
      ensures choices == old(choices)
      ensures var s := FailureState(old(Abs()), n);
        Abs() == SpawnAllNormal(cfg, s, ReadyAfterFailure(cfg, s, Out(cfg, n)))
    {
      hide SpawnAllNormal, ReadyAfterFailure;
      runningSet := runningSet - {n};
      log := log + [Done(n)];
      failed := failed + {n};
      var ready := FindReadyAfterFailure(n);
      SpawnAfterFailure(ready);
    }

    /** One iteration on some run continues that run and lowers the termination measure. */
    method FinishOne(k: nat, o: Outcome)
      requires Valid() && k < |running|
      modifies this
      ensures Valid() && Descends(cfg, Abs(), old(Abs()))
    {
      assert EndpointsExist(cfg.graph);
      hide ValidGraph, Step, Descends, EndpointsExist;
      StepDescends(cfg, Abs(), k, o);
      FinishTask(k, o);
      choices := choices + [Choice(k, o)];
      assert choices[..|choices| - 1] == old(choices);
    }

    method DetermineStatus(cancelled: bool) returns (status: RunStatus)
      ensures status == FinalStatus(cfg, Abs(), cancelled)
    {
      var allNodes := Elements(cfg.graph.nodes);
      if cancelled {
        status := Cancelled;
      } else if |completed| + |failed| < |allNodes| && runningSet == {}
                && !(forall n :: n in cfg.graph.nodes ==> n in completed || n in failed)
      {
        status := RunStatus.Failed;
      } else if failed == {} {
        status := Completed;
      } else {
        status := RunStatus.Failed;
      }
    }

    /** The whole run. Which task finishes next, how, and whether a cancellation arrives are
        arbitrary; the loop terminates for every choice, and the status is exact. */
    method ExecuteRun() returns (status: RunStatus, ghost stopped: bool)
      requires Valid()
      modifies this
      ensures Valid()
      ensures status == Cancelled <==> stopped
      ensures !stopped ==> running == []
      ensures status == Completed <==>
        status != Cancelled && failed == {} && forall n :: n in cfg.graph.nodes ==> n in completed
    {
      hide ValidGraph, Run, Step;
      var cancelled: bool := *;
      while !cancelled && running != []
        invariant Valid()
        decreases Budget(cfg.graph.edges, cfg.maxTraversals, edgeTraversalCounts), |PendingNodes(cfg, Abs())|, |running|
      {
        RunBooks(cfg, choices);
        BudgetNonNegative(cfg, cfg.graph.edges, edgeTraversalCounts);
        var k: nat :| k < |running|;
        var o: Outcome := *;
        FinishOne(k, o);
        cancelled := *;
      }
      stopped := cancelled;
      status := DetermineStatus(cancelled);
      if !cancelled {
        FinalStatusExact(cfg, choices);
      }
    }
  }
}
