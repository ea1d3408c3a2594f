/** Every run terminates, and every node starts a bounded number of times. */
module SchedulerBounds {
  import opened Common
  import opened Graph
  import BackEdges
  import opened Scheduler
  import opened SchedulerBooks

  // ---- Traversals left ----

  /** Traversals the edges have left, summed over the edges. */
  function Budget(edges: seq<Edge>, max: nat, counts: map<EdgeId, nat>): int {
    if edges == [] then 0
    else Budget(edges[..|edges| - 1], max, counts) + max - Count(counts, edges[|edges| - 1].id)
  }

  lemma {:induction false} BudgetNonNegative(c: Config, edges: seq<Edge>, counts: map<EdgeId, nat>)
    requires CountsBounded(c, counts)
    ensures Budget(edges, c.maxTraversals, counts) >= 0
  {
    if edges != [] {
      BudgetNonNegative(c, edges[..|edges| - 1], counts);
    }
  }

  /** Raising one count can only lower the budget, and does if the edge is among those summed. */
  lemma {:induction false} BudgetDrops(edges: seq<Edge>, max: nat, counts: map<EdgeId, nat>, id: EdgeId, add: nat)
    ensures var counts' := counts[id := Count(counts, id) + add];
      && Budget(edges, max, counts') <= Budget(edges, max, counts)
      && (add == 0 ==> Budget(edges, max, counts') == Budget(edges, max, counts))
      && (add > 0 && (exists e :: e in edges && e.id == id) ==>
        Budget(edges, max, counts') < Budget(edges, max, counts))
  {
    if edges != [] {
      BudgetDrops(edges[..|edges| - 1], max, counts, id, add);
    }
  }

  /** A scan either starts nothing and spends nothing, or spends. */
  lemma {:induction false} ScanSpends(c: Config, s: State, output: Json, fromFanIn: bool, edges: seq<Edge>)
    requires forall e :: e in edges ==> e in c.graph.edges
    ensures var a := ScanEdges(c, s, output, fromFanIn, edges);
      var before := Budget(c.graph.edges, c.maxTraversals, s.counts);
      var after := Budget(c.graph.edges, c.maxTraversals, a.counts);
      after < before || (after == before && a.ready == [] && a.seen == {})
  {
    hide Budget, Condition, Eligible;
    if edges != [] {
      var front, e := edges[..|edges| - 1], edges[|edges| - 1];
      ScanSpends(c, s, output, fromFanIn, front);
      var a := ScanEdges(c, s, output, fromFanIn, front);
      BudgetDrops(c.graph.edges, c.maxTraversals, a.counts, e.id, if Passes(c, a.counts, output, e) then 1 else 0);
    }
  }

  // ---- Termination ----

  /** Nodes that have neither run nor are running. */
  ghost function PendingNodes(c: Config, s: State): set<NodeId> {
    Elements(c.graph.nodes) - s.completed - s.failed - s.running
  }

  /** The lexicographic measure: traversals left, nodes pending, tasks in flight. */
  ghost predicate Descends(c: Config, s': State, s: State) {
    var b', b := Budget(c.graph.edges, c.maxTraversals, s'.counts), Budget(c.graph.edges, c.maxTraversals, s.counts);
    || b' < b
    || (b' == b && |PendingNodes(c, s')| < |PendingNodes(c, s)|)
    || (b' == b && |PendingNodes(c, s')| == |PendingNodes(c, s)| && |s'.tasks| < |s.tasks|)
  }

  lemma ShrinkingDescends(c: Config, s': State, s: State)
    requires s'.counts == s.counts && PendingNodes(c, s') <= PendingNodes(c, s)
    requires |s'.tasks| < |s.tasks| || PendingNodes(c, s') != PendingNodes(c, s)
    ensures Descends(c, s', s)
  {
    hide Budget;
    SubsetCard(PendingNodes(c, s'), PendingNodes(c, s));
  }

  lemma DownstreamDescends(c: Config, s: State, s1: State, n: NodeId, output: Json, fromFanIn: bool)
    requires s1.counts == s.counts && PendingNodes(c, s1) <= PendingNodes(c, s) && |s1.tasks| < |s.tasks|
    ensures Descends(c, Downstream(c, s1, n, output, fromFanIn), s)
  {
    hide Budget, ScanEdges, PendingNodes;
    ScanSpends(c, s1, output, fromFanIn, Out(c, n));
    var a := ScanEdges(c, s1, output, fromFanIn, Out(c, n));
    SpawnAllCounts(c, s1.(counts := a.counts), a.ready);
    if a.ready == [] {
      PendingIgnoresCounts(c, s1, a.counts);
      SubsetCard(PendingNodes(c, s1), PendingNodes(c, s));
    }
  }

  lemma PendingIgnoresCounts(c: Config, s: State, counts: map<EdgeId, nat>)
    ensures PendingNodes(c, s.(counts := counts)) == PendingNodes(c, s)
  {
  }

  lemma {:induction false} SpawnAllCounts(c: Config, s: State, ready: seq<ReadyNode>)
    ensures SpawnAll(c, s, ready).counts == s.counts
  {
    hide ResolveInputs;
    if ready != [] {
      SpawnAllCounts(c, s, ready[..|ready| - 1]);
    }
  }

  lemma {:induction false} SpawnAllNormalEffect(c: Config, s: State, nodes: seq<NodeId>)
    ensures var s' := SpawnAllNormal(c, s, nodes);
      && s'.counts == s.counts && s'.completed == s.completed && s'.failed == s.failed && s'.fan == s.fan
      && s'.running == s.running + Elements(nodes) && |s'.tasks| == |s.tasks| + |nodes|
  {
    hide ResolveInputs;
    if nodes != [] {
      SpawnAllNormalEffect(c, s, nodes[..|nodes| - 1]);
      assert Elements(nodes) == Elements(nodes[..|nodes| - 1]) + {nodes[|nodes| - 1]};
    }
  }

  lemma FailureDescends(c: Config, s: State, k: nat, o: Outcome)
    requires EndpointsExist(c.graph) && k < |s.tasks|
    ensures var s2 := FailureState(Taken(s, k, o), s.tasks[k].node);
      Descends(c, SpawnAllNormal(c, s2, ReadyAfterFailure(c, s2, Out(c, s.tasks[k].node))), s)
  {
    hide Budget, SpawnAllNormal, ReadyAfterFailure;
    var n := s.tasks[k].node;
    var s2 := FailureState(Taken(s, k, o), n);
    var ready := ReadyAfterFailure(c, s2, Out(c, n));
    AfterFailureTargets(c, s2, Out(c, n));
    SpawnAllNormalEffect(c, s2, ready);
    var s' := SpawnAllNormal(c, s2, ready);
    if ready != [] {
      assert ready[0] in ready && RunnableAfterFailure(c, s2, ready[0]);
      assert ready[0] in PendingNodes(c, s) && ready[0] !in PendingNodes(c, s');
    }
    ShrinkingDescends(c, s', s);
  }

  /** Every step of every run lowers the measure, for any outcome, condition, cycle or fan-out. */
  lemma StepDescends(c: Config, s: State, k: nat, o: Outcome)
    requires EndpointsExist(c.graph) && k < |s.tasks|
    ensures Descends(c, Step(c, s, k, o), s)
  {
    StepCases(c, s, k, o);
    hide Step, Merged, Downstream, SpawnAllNormal, ReadyAfterFailure, Fill, Descends, Budget;
    var t, s1 := s.tasks[k], Taken(s, k, o);
    if t.index.Some? {
      if t.node in s.fan {
        var f := Fill(s.fan[t.node], t.index.value, o);
        if f.completed == f.expected {
          DownstreamDescends(c, s, FanInState(s1, t.node, Merged(f.results)), t.node, Array(Merged(f.results)), true);
        } else {
          ShrinkingDescends(c, s1.(fan := s1.fan[t.node := f]), s);
        }
      } else {
        ShrinkingDescends(c, s1, s);
      }
    } else if o.Success? {
      DownstreamDescends(c, s, SuccessState(s1, t.node, o.value), t.node, o.value, false);
    } else {
      FailureDescends(c, s, k, o);
    }
  }

  // ---- How often a node starts ----

  /** A start of a node as a whole: its normal task, or the first instance of a fan-out. */
  predicate Activates(x: Entry, n: NodeId) {
    x.Started? && x.task.node == n && (x.task.index == None || x.task.index == Some(0))
  }

  function Activations(log: seq<Entry>, n: NodeId): nat {
    if log == [] then 0
    else Activations(log[..|log| - 1], n) + if Activates(log[|log| - 1], n) then 1 else 0
  }

  /** Traversals used up by edges into a node. */
  function Used(edges: seq<Edge>, counts: map<EdgeId, nat>, n: NodeId): nat {
    if edges == [] then 0
    else
      var e := edges[|edges| - 1];
      Used(edges[..|edges| - 1], counts, n) + if e.to == n then Count(counts, e.id) else 0
  }

  lemma {:induction false} ActivationsConcat(a: seq<Entry>, b: seq<Entry>, n: NodeId)
    ensures Activations(a + b, n) == Activations(a, n) + Activations(b, n)
  {
    if b == [] {
      assert a + b == a;
    } else {
      ActivationsConcat(a, b[..|b| - 1], n);
      assert (a + b)[..|a + b| - 1] == a + b[..|b| - 1];
    }
  }

  lemma {:induction false} UsedGrows(edges: seq<Edge>, counts: map<EdgeId, nat>, id: EdgeId, add: nat, n: NodeId)
    ensures var counts' := counts[id := Count(counts, id) + add];
      && Used(edges, counts, n) <= Used(edges, counts', n)
      && ((exists e :: e in edges && e.id == id && e.to == n) ==>
        Used(edges, counts, n) + add <= Used(edges, counts', n))
  {
    if edges != [] {
      UsedGrows(edges[..|edges| - 1], counts, id, add, n);
    }
  }

  ghost function Wanted(ready: seq<ReadyNode>, n: NodeId): nat {
    if exists r :: r in ready && r.node == n then 1 else 0
  }

  /** Whatever the scan wants to start has been paid for by a traversal of an edge into it. */
  lemma {:induction false} ScanPays(c: Config, s: State, output: Json, fromFanIn: bool, edges: seq<Edge>, n: NodeId)
    requires forall e :: e in edges ==> e in c.graph.edges
    ensures var a := ScanEdges(c, s, output, fromFanIn, edges);
      Used(c.graph.edges, s.counts, n) + Wanted(a.ready, n) <= Used(c.graph.edges, a.counts, n)
  {
    hide Used, Condition, Eligible;
    if edges != [] {
      var front, e := edges[..|edges| - 1], edges[|edges| - 1];
      ScanPays(c, s, output, fromFanIn, front, n);
      ScanSeen(c, s, output, fromFanIn, front);
      var a := ScanEdges(c, s, output, fromFanIn, front);
      UsedGrows(c.graph.edges, a.counts, e.id, if Passes(c, a.counts, output, e) then 1 else 0, n);
    }
  }

  lemma {:induction false} ScanSeen(c: Config, s: State, output: Json, fromFanIn: bool, edges: seq<Edge>)
    ensures var a := ScanEdges(c, s, output, fromFanIn, edges); forall r :: r in a.ready ==> r.node in a.seen
  {
    hide Condition, Eligible;
    if edges != [] {
      ScanSeen(c, s, output, fromFanIn, edges[..|edges| - 1]);
    }
  }

  lemma {:induction false} FanOutActivates(n: NodeId, items: seq<Json>, m: NodeId)
    ensures Activations(StartEntries(FanOutTasks(n, items)), m) == if m == n && items != [] then 1 else 0
  {
    var log := StartEntries(FanOutTasks(n, items));
    if items != [] {
      var front := items[..|items| - 1];
      FanOutActivates(n, front, m);
      assert log[..|log| - 1] == StartEntries(FanOutTasks(n, front));
    }
  }

  lemma OneActivates(x: Entry, m: NodeId)
    ensures Activations([x], m) == if Activates(x, m) then 1 else 0
  {
  }

  lemma SpawnActivates(c: Config, s: State, r: ReadyNode, m: NodeId)
    requires r.items.Some? ==> r.items.value != []
    ensures Activations(Spawn(c, s, r).log, m) == Activations(s.log, m) + if r.node == m then 1 else 0
  {
    hide Activations, ResolveInputs;
    match r.items {
      case Some(items) =>
        ActivationsConcat(s.log, StartEntries(FanOutTasks(r.node, items)), m);
        FanOutActivates(r.node, items, m);
      case None =>
        var s1 := if r.isCycle then s.(completed := s.completed - {r.node}) else s;
        var t := Task(r.node, None, ResolveInputs(c, s1.outputs, r.node));
        assert StartEntries([t]) == [Started(t)];
        ActivationsConcat(s.log, [Started(t)], m);
        OneActivates(Started(t), m);
    }
  }

  lemma {:induction false} SpawnAllActivates(c: Config, s: State, ready: seq<ReadyNode>, m: NodeId)
    requires DistinctNodes(ready) && forall r :: r in ready && r.items.Some? ==> r.items.value != []
    ensures Activations(SpawnAll(c, s, ready).log, m) == Activations(s.log, m) + Wanted(ready, m)
  {
    hide Activations, Spawn;
    if ready != [] {
      var front, r := ready[..|ready| - 1], ready[|ready| - 1];
      SpawnAllActivates(c, s, front, m);
      SpawnActivates(c, SpawnAll(c, s, front), r, m);
      assert forall x :: x in ready <==> x in front || x == r;
      assert forall x :: x in front ==> x.node != r.node;
    }
  }

  ghost function EntryStart(c: Config, n: NodeId): nat {
    if n in BackEdges.EntryNodes(c.graph, c.back) then 1 else 0
  }

  /** A normal task that failed. */
  predicate IsFailure(x: Entry) { x.Finished? && x.task.index.None? && x.outcome.Failed? }

  /** Starts that failures can cause: for every failure of a source, one per edge into `n`. */
  function FailureStarts(c: Config, log: seq<Entry>, n: NodeId): nat {
    if log == [] then 0
    else
      var x := log[|log| - 1];
      FailureStarts(c, log[..|log| - 1], n) + if IsFailure(x) then Parallel(Out(c, x.task.node), n) else 0
  }

  lemma {:induction false} FailureStartsConcat(c: Config, a: seq<Entry>, b: seq<Entry>, n: NodeId)
    ensures FailureStarts(c, a + b, n) == FailureStarts(c, a, n) + FailureStarts(c, b, n)
  {
    hide Parallel, Out;
    if b == [] {
      assert a + b == a;
    } else {
      FailureStartsConcat(c, a, b[..|b| - 1], n);
      assert (a + b)[..|a + b| - 1] == a + b[..|b| - 1];
    }
  }

  lemma FailureStartsOne(c: Config, x: Entry, n: NodeId)
    ensures FailureStarts(c, [x], n) == if IsFailure(x) then Parallel(Out(c, x.task.node), n) else 0
  {
    assert [x][..0] == [];
  }

  lemma {:induction false} StartsNotFailures(c: Config, log: seq<Entry>, tasks: seq<Task>, n: NodeId)
    ensures FailureStarts(c, log + StartEntries(tasks), n) == FailureStarts(c, log, n)
  {
    hide Parallel, Out;
    if tasks == [] {
      assert log + StartEntries(tasks) == log;
    } else {
      var front := tasks[..|tasks| - 1];
      StartsNotFailures(c, log, front, n);
      var longer := log + StartEntries(tasks);
      assert longer[..|longer| - 1] == log + StartEntries(front);
    }
  }

  lemma {:induction false} SpawnAllNotFailures(c: Config, s: State, ready: seq<ReadyNode>, n: NodeId)
    ensures FailureStarts(c, SpawnAll(c, s, ready).log, n) == FailureStarts(c, s.log, n)
  {
    hide FailureStarts, ResolveInputs;
    if ready != [] {
      var front, r := ready[..|ready| - 1], ready[|ready| - 1];
      SpawnAllNotFailures(c, s, front, n);
      var s1 := SpawnAll(c, s, front);
      match r.items {
        case Some(items) => StartsNotFailures(c, s1.log, FanOutTasks(r.node, items), n);
        case None =>
          var s2 := if r.isCycle then s1.(completed := s1.completed - {r.node}) else s1;
          StartsNotFailures(c, s1.log, [Task(r.node, None, ResolveInputs(c, s2.outputs, r.node))], n);
      }
    }
  }

  /** Every start of a node is its entry start, paid for by a traversal into it, or caused by the
      failure of a source. */
  ghost predicate Paid(c: Config, s: State) {
    forall n ::
      Activations(s.log, n) <= EntryStart(c, n) + Used(c.graph.edges, s.counts, n) + FailureStarts(c, s.log, n)
  }

  lemma DownstreamPaid(c: Config, s: State, n: NodeId, output: Json, fromFanIn: bool)
    requires Paid(c, s)
    ensures Paid(c, Downstream(c, s, n, output, fromFanIn))
  {
    hide Activations, Used, ScanEdges, SpawnAll, EntryStart, Wanted, FailureStarts;
    var a := ScanEdges(c, s, output, fromFanIn, Out(c, n));
    ScanReady(c, s, output, fromFanIn, Out(c, n));
    SpawnAllCounts(c, s.(counts := a.counts), a.ready);
    forall m
      ensures Activations(Downstream(c, s, n, output, fromFanIn).log, m) <=
        EntryStart(c, m) + Used(c.graph.edges, a.counts, m) +
          FailureStarts(c, Downstream(c, s, n, output, fromFanIn).log, m)
    {
      SpawnAllNotFailures(c, s.(counts := a.counts), a.ready, m);
      ScanPays(c, s, output, fromFanIn, Out(c, n), m);
      SpawnAllActivates(c, s.(counts := a.counts), a.ready, m);
    }
  }

  lemma QuietEntries(c: Config, s: State, s1: State, xs: seq<Entry>)
    requires Paid(c, s) && s1.log == s.log + xs && s1.counts == s.counts
    requires forall x :: x in xs ==> !x.Started?
    ensures Paid(c, s1)
  {
    hide Activations, Used, FailureStarts, EntryStart;
    forall n
      ensures Activations(s1.log, n) == Activations(s.log, n)
      ensures FailureStarts(c, s1.log, n) >= FailureStarts(c, s.log, n)
    {
      ActivationsConcat(s.log, xs, n);
      QuietActivations(xs, n);
      FailureStartsConcat(c, s.log, xs, n);
    }
  }

  lemma {:induction false} QuietActivations(xs: seq<Entry>, n: NodeId)
    requires forall x :: x in xs ==> !x.Started?
    ensures Activations(xs, n) == 0
  {
    if xs != [] {
      QuietActivations(xs[..|xs| - 1], n);
    }
  }

  lemma StepPaid(c: Config, s: State, k: nat, o: Outcome)
    requires Paid(c, s) && k < |s.tasks|
    ensures Paid(c, Step(c, s, k, o))
  {
    StepCases(c, s, k, o);
    hide Step, Merged, Downstream, Fill, Paid, SpawnAllNormal, ReadyAfterFailure;
    var t, s1 := s.tasks[k], Taken(s, k, o);
    QuietEntries(c, s, s1, [Finished(t, o)]);
    if t.index.Some? {
      if t.node in s.fan {
        var f := Fill(s.fan[t.node], t.index.value, o);
        var merged := Merged(f.results);
        QuietEntries(c, s1, FanInState(s1, t.node, merged), [FannedIn(t.node, merged), Done(t.node)]);
        DownstreamPaid(c, FanInState(s1, t.node, merged), t.node, Array(merged), true);
        QuietEntries(c, s1, s1.(fan := s1.fan[t.node := f]), []);
      }
    } else if o.Success? {
      QuietEntries(c, s1, SuccessState(s1, t.node, o.value), [Done(t.node)]);
      DownstreamPaid(c, SuccessState(s1, t.node, o.value), t.node, o.value, false);
    } else {
      FailurePaid(c, s, FailureState(s1, t.node), t, o);
    }
  }

  lemma {:induction false} AfterFailureActivates(c: Config, s: State, edges: seq<Edge>, n: NodeId)
    ensures var s' := SpawnAllNormal(c, s, ReadyAfterFailure(c, s, edges));
      && Activations(s'.log, n) <= Activations(s.log, n) + Parallel(edges, n)
      && FailureStarts(c, s'.log, n) == FailureStarts(c, s.log, n)
  {
    hide ResolveInputs, RunnableAfterFailure, Activations, FailureStarts;
    if edges != [] {
      var front, m := edges[..|edges| - 1], edges[|edges| - 1].to;
      AfterFailureActivates(c, s, front, n);
      if RunnableAfterFailure(c, s, m) {
        var nodes := ReadyAfterFailure(c, s, front);
        assert (nodes + [m])[..|nodes|] == nodes;
        var s1 := SpawnAllNormal(c, s, nodes);
        assert Spawn(c, s1, ReadyNode(m, None, false)) == SpawnNormal(c, s1, m);
        SpawnActivates(c, s1, ReadyNode(m, None, false), n);
        StartsNotFailures(c, s1.log, [Task(m, None, ResolveInputs(c, s1.outputs, m))], n);
      }
    }
  }

  /** A failure pays for what it starts. */
  lemma FailurePaid(c: Config, s: State, s2: State, t: Task, o: Outcome)
    requires Paid(c, s) && t.index.None? && o.Failed?
    requires s2.log == s.log + [Finished(t, o)] + [Done(t.node)] && s2.counts == s.counts
    ensures Paid(c, SpawnAllNormal(c, s2, ReadyAfterFailure(c, s2, Out(c, t.node))))
  {
    hide Activations, Used, FailureStarts, EntryStart, SpawnAllNormal, ReadyAfterFailure, Parallel, Out;
    var edges := Out(c, t.node);
    SpawnAllNormalEffect(c, s2, ReadyAfterFailure(c, s2, edges));
    forall n
      ensures Activations(s2.log, n) == Activations(s.log, n)
      ensures FailureStarts(c, s2.log, n) == FailureStarts(c, s.log, n) + Parallel(edges, n)
    {
      ActivationsConcat(s.log + [Finished(t, o)], [Done(t.node)], n);
      ActivationsConcat(s.log, [Finished(t, o)], n);
      OneActivates(Finished(t, o), n);
      OneActivates(Done(t.node), n);
      FailureStartsConcat(c, s.log + [Finished(t, o)], [Done(t.node)], n);
      FailureStartsConcat(c, s.log, [Finished(t, o)], n);
      FailureStartsOne(c, Finished(t, o), n);
      FailureStartsOne(c, Done(t.node), n);
    }
    var s' := SpawnAllNormal(c, s2, ReadyAfterFailure(c, s2, edges));
    forall n
      ensures Activations(s'.log, n) <=
              EntryStart(c, n) + Used(c.graph.edges, s'.counts, n) + FailureStarts(c, s'.log, n)
    {
      AfterFailureActivates(c, s2, edges, n);
    }
  }

  /** Failures are never forgotten. */
  lemma {:induction false} FailedGrows(c: Config, s: State, k: nat, o: Outcome)
    requires k < |s.tasks|
    ensures s.failed <= Step(c, s, k, o).failed
    ensures s.tasks[k].index.None? && o.Failed? ==> Step(c, s, k, o).failed != {}
  {
    StepCases(c, s, k, o);
    hide Step, Merged, ScanEdges, SpawnAll, SpawnAllNormal, ReadyAfterFailure, Fill, ResolveInputs;
    var t, s1 := s.tasks[k], Taken(s, k, o);
    if t.index.Some? && t.node in s.fan {
      var merged := Merged(Fill(s.fan[t.node], t.index.value, o).results);
      DownstreamFailed(c, FanInState(s1, t.node, merged), t.node, Array(merged), true);
    } else if o.Success? {
      DownstreamFailed(c, SuccessState(s1, t.node, o.value), t.node, o.value, false);
    } else {
      var s2 := FailureState(s1, t.node);
      SpawnAllNormalEffect(c, s2, ReadyAfterFailure(c, s2, Out(c, t.node)));
      assert t.node in s2.failed;
    }
  }

  lemma DownstreamFailed(c: Config, s: State, n: NodeId, output: Json, fromFanIn: bool)
    ensures Downstream(c, s, n, output, fromFanIn).failed == s.failed
  {
    SpawnAllFailed(c, s.(counts := ScanEdges(c, s, output, fromFanIn, Out(c, n)).counts),
                   ScanEdges(c, s, output, fromFanIn, Out(c, n)).ready);
  }

  lemma {:induction false} SpawnAllFailed(c: Config, s: State, ready: seq<ReadyNode>)
    ensures SpawnAll(c, s, ready).failed == s.failed
  {
    hide ResolveInputs;
    if ready != [] {
      SpawnAllFailed(c, s, ready[..|ready| - 1]);
    }
  }

  lemma InitPaid(c: Config)
    requires Distinct(c.graph.nodes)
    ensures Paid(c, Init(c))
  {
    var entries := BackEdges.EntryNodes(c.graph, c.back);
    EntryNodesDistinct(c.graph, c.back, c.graph.nodes);
    assert Init(c).log == StartEntries(EntryTasks(c, entries));
    forall n ensures Activations(Init(c).log, n) <= EntryStart(c, n) {
      EntriesActivate(c, entries, n);
    }
  }

  lemma {:induction false} EntriesActivate(c: Config, nodes: seq<NodeId>, n: NodeId)
    requires Distinct(nodes)
    ensures Activations(StartEntries(EntryTasks(c, nodes)), n) == if n in nodes then 1 else 0
  {
    var log := StartEntries(EntryTasks(c, nodes));
    if nodes != [] {
      var front := nodes[..|nodes| - 1];
      EntriesActivate(c, front, n);
      assert log[..|log| - 1] == StartEntries(EntryTasks(c, front));
      assert nodes[|nodes| - 1] !in front;
      assert n in nodes <==> n in front || n == nodes[|nodes| - 1];
    }
  }

  lemma {:induction false} RunPaid(c: Config, choices: seq<Choice>)
    requires Distinct(c.graph.nodes)
    ensures Paid(c, Run(c, choices))
  {
    hide Paid, Step, Init;
    if choices == [] {
      InitPaid(c);
    } else {
      var s, ch := Run(c, choices[..|choices| - 1]), choices[|choices| - 1];
      RunPaid(c, choices[..|choices| - 1]);
      if ch.k < |s.tasks| {
        StepPaid(c, s, ch.k, ch.outcome);
      }
    }
  }

  lemma {:induction false} UsedBounded(c: Config, edges: seq<Edge>, counts: map<EdgeId, nat>, n: NodeId)
    requires CountsBounded(c, counts)
    ensures Used(edges, counts, n) <= c.maxTraversals * |InEdges(edges, n)|
  {
    if edges != [] {
      var front := edges[..|edges| - 1];
      UsedBounded(c, front, counts, n);
      var e := edges[|edges| - 1];
      if e.to == n {
        assert |InEdges(edges, n)| == |InEdges(front, n)| + 1;
        assert c.maxTraversals * (|InEdges(front, n)| + 1) == c.maxTraversals * |InEdges(front, n)| + c.maxTraversals;
      } else {
        assert InEdges(edges, n) == InEdges(front, n);
      }
    }
  }

  /** In every run a node starts at most once as an entry node, `maxTraversals` times for each edge
      into it, and once for each failure of a source and edge from that source. */
  lemma ActivationsBounded(c: Config, choices: seq<Choice>, n: NodeId)
    requires ValidGraph(c.graph)
    ensures Activations(Run(c, choices).log, n) <=
            EntryStart(c, n) + c.maxTraversals * |In(c, n)| + FailureStarts(c, Run(c, choices).log, n)
  {
    hide Run, Activations, Used, EntryStart, FailureStarts;
    RunPaid(c, choices);
    RunBooks(c, choices);
    UsedBounded(c, c.graph.edges, Run(c, choices).counts, n);
  }

  // ---- Runs without failures ----

  lemma {:induction false} QuietFailureStarts(c: Config, log: seq<Entry>, xs: seq<Entry>, n: NodeId)
    requires forall x :: x in xs ==> !IsFailure(x)
    ensures FailureStarts(c, log + xs, n) == FailureStarts(c, log, n)
  {
    hide Parallel, Out;
    if xs == [] {
      assert log + xs == log;
    } else {
      QuietFailureStarts(c, log, xs[..|xs| - 1], n);
      assert (log + xs)[..|log + xs| - 1] == log + xs[..|xs| - 1];
      assert xs[|xs| - 1] in xs;
    }
  }

  lemma StepFailureStarts(c: Config, s: State, k: nat, o: Outcome, n: NodeId)
    requires k < |s.tasks| && (s.tasks[k].index.Some? || o.Success?)
    ensures FailureStarts(c, Step(c, s, k, o).log, n) == FailureStarts(c, s.log, n)
  {
    StepCases(c, s, k, o);
    hide Step, Merged, ScanEdges, SpawnAll, Fill, FailureStarts, Out;
    var t, s1 := s.tasks[k], Taken(s, k, o);
    QuietFailureStarts(c, s.log, [Finished(t, o)], n);
    if t.index.Some? {
      if t.node in s.fan {
        var merged := Merged(Fill(s.fan[t.node], t.index.value, o).results);
        var s2 := FanInState(s1, t.node, merged);
        QuietFailureStarts(c, s1.log, [FannedIn(t.node, merged), Done(t.node)], n);
        var a := ScanEdges(c, s2, Array(merged), true, Out(c, t.node));
        SpawnAllNotFailures(c, s2.(counts := a.counts), a.ready, n);
      }
    } else {
      var s2 := SuccessState(s1, t.node, o.value);
      QuietFailureStarts(c, s1.log, [Done(t.node)], n);
      var a := ScanEdges(c, s2, o.value, false, Out(c, t.node));
      SpawnAllNotFailures(c, s2.(counts := a.counts), a.ready, n);
    }
  }

  lemma {:induction false} NoFailureStarts(c: Config, choices: seq<Choice>, n: NodeId)
    requires Run(c, choices).failed == {}
    ensures FailureStarts(c, Run(c, choices).log, n) == 0
  {
    hide Step, FailureStarts;
    if choices == [] {
      InitFailureStarts(c, n);
    } else {
      var s, ch := Run(c, choices[..|choices| - 1]), choices[|choices| - 1];
      if ch.k < |s.tasks| {
        FailedGrows(c, s, ch.k, ch.outcome);
        StepFailureStarts(c, s, ch.k, ch.outcome, n);
      }
      NoFailureStarts(c, choices[..|choices| - 1], n);
    }
  }

  lemma InitFailureStarts(c: Config, n: NodeId)
    ensures FailureStarts(c, Init(c).log, n) == 0
  {
    var entries := BackEdges.EntryNodes(c.graph, c.back);
    StartsNotFailures(c, [], EntryTasks(c, entries), n);
  }

  /** Without a failed normal task the bound is the entry start and the traversals alone. */
  lemma ActivationsWithoutFailure(c: Config, choices: seq<Choice>, n: NodeId)
    requires ValidGraph(c.graph) && Run(c, choices).failed == {}
    ensures Activations(Run(c, choices).log, n) <= EntryStart(c, n) + c.maxTraversals * |In(c, n)|
  {
    hide Run, Activations, EntryStart, FailureStarts;
    ActivationsBounded(c, choices, n);
    NoFailureStarts(c, choices, n);
  }
}
