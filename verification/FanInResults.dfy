/** What a fan-in merges and what a node's output is, told by what its tasks reported. */
module FanInResults {
  import opened Common
  import opened Graph
  import BackEdges
  import opened Scheduler
  import opened SchedulerBooks
  import opened SchedulerFanIn

  // ---- What instance i reported is at position i ----

  /** The value an instance reported, or an object with its error and its index. */
  ghost predicate Shows(v: Json, o: Outcome, i: nat) {
    match o
    case Success(x) => v == x
    case Failed(error) =>
      && v.Object? && v.fields.Keys == {"error", "fan_out_index"}
      && v.fields["error"] == String(error) && v.fields["fan_out_index"] == Number(i as real)
  }

  ghost predicate ReportedAs(log: seq<Entry>, p: nat, q: nat, n: NodeId, i: nat, v: Json)
    requires q <= |log|
  {
    exists j, t, o :: p <= j < q && log[j] == Finished(t, o) && t.node == n && t.index == Some(i) && Shows(v, o, i)
  }

  lemma SlotShows(o: Outcome, i: nat)
    ensures Shows(Slot(o, i), o, i)
  {
  }

  /** Every position of a merged array shows what the instance of that index reported. */
  lemma MergedShows(log: seq<Entry>, p: nat, q: nat, i: nat)
    requires MergesBatch(log, p, q) && i < |log[q].merged|
    ensures ReportedAs(log, p, q, log[q].node, i, log[q].merged[i])
  {
    hide Shows, Slot;
    var n, merged := log[q].node, log[q].merged;
    assert AllSome(merged)[i] == Some(merged[i]);
    assert HasReport(log, p, q, n, i, merged[i]);
    var j :| p <= j < q && Reports(log[j], n, i, merged[i]);
    SlotShows(log[j].outcome, i);
    assert log[j] == Finished(log[j].task, log[j].outcome);
  }

  ghost predicate MergedShown(log: seq<Entry>, p: nat, q: nat)
    requires q < |log| && log[q].FannedIn?
  {
    forall i: nat :: i < |log[q].merged| ==> ReportedAs(log, p, q, log[q].node, i, log[q].merged[i])
  }

  /** In every run, each fan-in merges the reports of one batch, each at its own position. */
  lemma EveryFanInShows(c: Config, choices: seq<Choice>, q: nat) returns (p: nat)
    requires ValidGraph(c.graph) && q < |Run(c, choices).log| && Run(c, choices).log[q].FannedIn?
    ensures var log := Run(c, choices).log;
      MergesBatch(log, p, q) && MergedShown(log, p, q)
  {
    hide Run, MergesBatch, OpenBatch, HeadAccounted, HasOpenBatch, ReportedAs;
    RunBatches(c, choices);
    var log := Run(c, choices).log;
    assert Merges(log, q);
    p :| MergesBatch(log, p, q);
    forall i: nat | i < |log[q].merged| ensures ReportedAs(log, p, q, log[q].node, i, log[q].merged[i]) {
      MergedShows(log, p, q, i);
    }
  }

  // ---- Outputs are the latest results ----

  /** What a node last produced: what its task returned, or the array of its fan-in. */
  function Result(x: Entry, n: NodeId): Option<Json> {
    match x
    case Finished(t, Success(v)) => if t.node == n && t.index == None then Some(v) else None
    case FannedIn(m, merged) => if m == n then Some(Array(merged)) else None
    case _ => None
  }

  function LastResult(log: seq<Entry>, n: NodeId): Option<Json> {
    if log == [] then None
    else if Result(log[|log| - 1], n).Some? then Result(log[|log| - 1], n)
    else LastResult(log[..|log| - 1], n)
  }

  /** Each node's output is its latest result; before that an entry node shows the trigger inputs,
      any other node nothing. */
  ghost predicate OutputsShown(c: Config, s: State) {
    forall n ::
      match LastResult(s.log, n)
      case Some(v) => n in s.outputs && s.outputs[n] == v
      case None =>
        && (n in s.outputs <==> n in BackEdges.EntryNodes(c.graph, c.back))
        && (n in s.outputs ==> s.outputs[n] == c.inputs)
  }

  lemma ResultSnoc(log: seq<Entry>, x: Entry, n: NodeId)
    ensures LastResult(log + [x], n) == if Result(x, n).Some? then Result(x, n) else LastResult(log, n)
  {
    assert (log + [x])[..|log|] == log;
  }

  lemma {:induction false} ResultsOfStarts(log: seq<Entry>, tasks: seq<Task>, n: NodeId)
    ensures LastResult(log + StartEntries(tasks), n) == LastResult(log, n)
  {
    if tasks == [] {
      assert log + StartEntries(tasks) == log;
    } else {
      var front := tasks[..|tasks| - 1];
      ResultsOfStarts(log, front, n);
      assert log + StartEntries(tasks) == (log + StartEntries(front)) + [Started(tasks[|tasks| - 1])];
      ResultSnoc(log + StartEntries(front), Started(tasks[|tasks| - 1]), n);
    }
  }

  lemma AddTasksShown(c: Config, s: State, s': State, tasks: seq<Task>)
    requires OutputsShown(c, s) && s'.outputs == s.outputs
    ensures s'.log == s.log ==> OutputsShown(c, AddTasks(s', tasks))
  {
    hide LastResult, BackEdges.EntryNodes;
    if s'.log == s.log {
      forall n ensures LastResult(AddTasks(s', tasks).log, n) == LastResult(s.log, n) {
        ResultsOfStarts(s.log, tasks, n);
      }
    }
  }

  lemma SpawnShown(c: Config, s: State, r: ReadyNode)
    requires OutputsShown(c, s)
    ensures OutputsShown(c, Spawn(c, s, r))
  {
    hide OutputsShown, ResolveInputs;
    var s1 := if r.isCycle then s.(completed := s.completed - {r.node}) else s;
    match r.items {
      case Some(items) => AddTasksShown(c, s, s1.(fan := s1.fan[r.node :=
        NewFanOut(|items|)]), FanOutTasks(r.node, items));
      case None =>
        AddTasksShown(c, s, s1.(running := s1.running +
          {r.node}), [Task(r.node, None, ResolveInputs(c, s1.outputs, r.node))]);
    }
  }

  lemma {:induction false} SpawnAllShown(c: Config, s: State, ready: seq<ReadyNode>)
    requires OutputsShown(c, s)
    ensures OutputsShown(c, SpawnAll(c, s, ready))
  {
    hide OutputsShown, Spawn;
    if ready != [] {
      SpawnAllShown(c, s, ready[..|ready| - 1]);
      SpawnShown(c, SpawnAll(c, s, ready[..|ready| - 1]), ready[|ready| - 1]);
    }
  }

  lemma {:induction false} SpawnAllNormalShown(c: Config, s: State, nodes: seq<NodeId>)
    requires OutputsShown(c, s)
    ensures OutputsShown(c, SpawnAllNormal(c, s, nodes))
  {
    hide OutputsShown, ResolveInputs;
    if nodes != [] {
      var s1, n := SpawnAllNormal(c, s, nodes[..|nodes| - 1]), nodes[|nodes| - 1];
      SpawnAllNormalShown(c, s, nodes[..|nodes| - 1]);
      AddTasksShown(c, s1, s1.(running := s1.running + {n}), [Task(n, None, ResolveInputs(c, s1.outputs, n))]);
    }
  }

  lemma DownstreamShown(c: Config, s: State, n: NodeId, output: Json, fromFanIn: bool)
    requires OutputsShown(c, s)
    ensures OutputsShown(c, Downstream(c, s, n, output, fromFanIn))
  {
    hide ScanEdges, SpawnAll, LastResult, BackEdges.EntryNodes;
    var a := ScanEdges(c, s, output, fromFanIn, Out(c, n));
    assert OutputsShown(c, s.(counts := a.counts));
    SpawnAllShown(c, s.(counts := a.counts), a.ready);
  }

  /** Up to two entries are added; together they carry at most one result, which becomes the output. */
  lemma ResultShown(c: Config, s: State, s': State, x: Entry, y: Entry, n: NodeId)
    requires OutputsShown(c, s) && s'.log == s.log + [x] + [y] && Result(y, n) == None
    requires forall m :: m != n ==> Result(x, m) == None && Result(y, m) == None
    requires s'.outputs == if Result(x, n).Some? then s.outputs[n := Result(x, n).value] else s.outputs
    ensures OutputsShown(c, s')
  {
    hide LastResult, Result, BackEdges.EntryNodes;
    forall m ensures LastResult(s'.log, m) == if m == n &&
      Result(x, n).Some? then Result(x, n) else LastResult(s.log, m) {
      ResultSnoc(s.log + [x], y, m);
      ResultSnoc(s.log, x, m);
    }
  }

  lemma OneShown(c: Config, s: State, s': State, x: Entry)
    requires OutputsShown(c, s) && s'.log == s.log + [x] && s'.outputs == s.outputs
    requires forall m :: Result(x, m) == None
    ensures OutputsShown(c, s')
  {
    hide LastResult, Result, BackEdges.EntryNodes;
    forall m ensures LastResult(s'.log, m) == LastResult(s.log, m) {
      ResultSnoc(s.log, x, m);
    }
  }

  lemma StepShown(c: Config, s: State, k: nat, o: Outcome)
    requires OutputsShown(c, s) && k < |s.tasks|
    ensures OutputsShown(c, Step(c, s, k, o))
  {
    hide Step, Merged, Downstream, SpawnAllNormal, ReadyAfterFailure, Fill, OutputsShown;
    StepCases(c, s, k, o);
    var t, s1 := s.tasks[k], Taken(s, k, o);
    if t.index.Some? {
      OneShown(c, s, s1, Finished(t, o));
      if t.node in s.fan {
        var f := Fill(s.fan[t.node], t.index.value, o);
        var s2 := FanInState(s1, t.node, Merged(f.results));
        assert s2.log == s1.log + [FannedIn(t.node, Merged(f.results))] + [Done(t.node)];
        ResultShown(c, s1, s2, FannedIn(t.node, Merged(f.results)), Done(t.node), t.node);
        DownstreamShown(c, s2, t.node, Array(Merged(f.results)), true);
        SameShown(c, s1, s1.(fan := s1.fan[t.node := f]));
      }
    } else if o.Success? {
      var s2 := SuccessState(s1, t.node, o.value);
      ResultShown(c, s, s2, Finished(t, o), Done(t.node), t.node);
      DownstreamShown(c, s2, t.node, o.value, false);
    } else {
      var s2 := FailureState(s1, t.node);
      ResultShown(c, s, s2, Finished(t, o), Done(t.node), t.node);
      SpawnAllNormalShown(c, s2, ReadyAfterFailure(c, s2, Out(c, t.node)));
    }
  }

  lemma SameShown(c: Config, s: State, s': State)
    requires OutputsShown(c, s) && s'.log == s.log && s'.outputs == s.outputs
    ensures OutputsShown(c, s')
  {
    hide LastResult, BackEdges.EntryNodes;
  }

  lemma InitShown(c: Config)
    ensures OutputsShown(c, Init(c))
  {
    hide BackEdges.EntryNodes;
    var entries := BackEdges.EntryNodes(c.graph, c.back);
    forall n ensures LastResult(Init(c).log, n) == None {
      ResultsOfStarts([], EntryTasks(c, entries), n);
    }
  }

  /** In every run the recorded output of a node is what it last produced: the value its task
      returned, or the merged array of its fan-in. */
  lemma {:induction false} RunShown(c: Config, choices: seq<Choice>)
    ensures OutputsShown(c, Run(c, choices))
  {
    hide OutputsShown, Step, Init;
    if choices == [] {
      InitShown(c);
    } else {
      var s, ch := Run(c, choices[..|choices| - 1]), choices[|choices| - 1];
      RunShown(c, choices[..|choices| - 1]);
      if ch.k < |s.tasks| {
        StepShown(c, s, ch.k, ch.outcome);
      }
    }
  }
}
