/** Bookkeeping that every run keeps: what is in flight matches what is recorded. */
module SchedulerBooks {
  import opened Common
  import opened Graph
  import BackEdges
  import opened Scheduler

  // ---- What edge evaluation returns ----

  /** A node the scan may start, judged in the state it was scanned in. */
  ghost predicate Startable(c: Config, s: State, r: ReadyNode) {
    && !FanOutRunning(s, r.node)
    && r.node !in s.running
    && r.isCycle == (r.node in s.completed)
    && (r.items.Some? ==> r.items.value != [])
    && (exists e :: e in c.graph.edges && e.to == r.node)
    && (!r.isCycle ==> r.node !in s.failed && ForwardSourcesDone(c, s, r.node))
  }

  ghost predicate ForwardSourcesDone(c: Config, s: State, n: NodeId) {
    forall e :: e in c.graph.edges && e.to == n && e.id !in c.back ==> SourceDone(s, e)
  }

  ghost predicate DistinctNodes(ready: seq<ReadyNode>) {
    forall i, j :: 0 <= i < j < |ready| ==> ready[i].node != ready[j].node
  }

  ghost predicate CountsBounded(c: Config, counts: map<EdgeId, nat>) {
    forall id :: id in counts ==> counts[id] <= c.maxTraversals
  }

  lemma {:induction false} ScanReady(c: Config, s: State, output: Json, fromFanIn: bool, edges: seq<Edge>)
    requires forall e :: e in edges ==> e in c.graph.edges
    ensures var a := ScanEdges(c, s, output, fromFanIn, edges);
      && DistinctNodes(a.ready)
      && (forall r :: r in a.ready ==> r.node in a.seen && Startable(c, s, r))
  {
    hide Condition, EdgeSatisfied, EdgeValue;
    if edges != [] {
      ScanReady(c, s, output, fromFanIn, edges[..|edges| - 1]);
    }
  }

  lemma {:induction false} ScanCounts(c: Config, s: State, output: Json, fromFanIn: bool, edges: seq<Edge>)
    requires CountsBounded(c, s.counts)
    ensures var a := ScanEdges(c, s, output, fromFanIn, edges);
      && CountsBounded(c, a.counts)
      && (forall id :: Count(s.counts, id) <= Count(a.counts, id))
  {
    hide Condition, Eligible;
    if edges != [] {
      ScanCounts(c, s, output, fromFanIn, edges[..|edges| - 1]);
    }
  }

  /** With counts in bounds, readiness does not depend on them. */
  lemma EligibleIgnoresCounts(c: Config, s: State, counts: map<EdgeId, nat>, counts': map<EdgeId, nat>, n: NodeId)
    requires CountsBounded(c, counts) && CountsBounded(c, counts')
    ensures Eligible(c, s, counts, n) <==> Eligible(c, s, counts', n)
  {
  }

  ghost predicate HasReady(ready: seq<ReadyNode>, n: NodeId) {
    exists r :: r in ready && r.node == n
  }

  ghost predicate Reached(c: Config, s: State, output: Json, edges: seq<Edge>, n: NodeId) {
    exists e :: e in edges && e.to == n && Passes(c, s.counts, output, e)
  }

  ghost predicate Traversed(c: Config, s: State, output: Json, edges: seq<Edge>, id: EdgeId) {
    exists e :: e in edges && e.id == id && Passes(c, s.counts, output, e)
  }

  lemma {:induction false} ScanCountsExact(c: Config, s: State, output: Json, fromFanIn: bool, edges: seq<Edge>)
    requires DistinctIds(edges)
    ensures var a := ScanEdges(c, s, output, fromFanIn, edges);
      forall id :: Count(a.counts, id) == Count(s.counts, id) + if Traversed(c, s, output, edges, id) then 1 else 0
  {
    hide Condition, Eligible, Traversed, FanOutItems;
    if edges == [] {
      assert forall id :: !Traversed(c, s, output, edges, id) by { NothingTraversed(c, s, output); }
    } else {
      var front, e := edges[..|edges| - 1], edges[|edges| - 1];
      ScanCountsExact(c, s, output, fromFanIn, front);
      forall id ensures Traversed(c, s, output, edges, id) <==>
        Traversed(c, s, output, front, id) || (id == e.id && Passes(c, s.counts, output, e))
      {
        TraversedLast(c, s, output, edges, id);
      }
      FirstTraversal(c, s, output, edges);
    }
  }

  lemma NothingTraversed(c: Config, s: State, output: Json)
    ensures forall id :: !Traversed(c, s, output, [], id)
  {
  }

  lemma TraversedLast(c: Config, s: State, output: Json, edges: seq<Edge>, id: EdgeId)
    requires edges != []
    ensures var front, e := edges[..|edges| - 1], edges[|edges| - 1];
      Traversed(c, s, output, edges, id) <==>
      Traversed(c, s, output, front, id) || (id == e.id && Passes(c, s.counts, output, e))
  {
  }

  /** With distinct ids, an edge has not been traversed earlier in the same scan. */
  lemma FirstTraversal(c: Config, s: State, output: Json, edges: seq<Edge>)
    requires DistinctIds(edges) && edges != []
    ensures !Traversed(c, s, output, edges[..|edges| - 1], edges[|edges| - 1].id)
  {
  }

  lemma {:induction false} ScanSeenExact(c: Config, s: State, output: Json, fromFanIn: bool, edges: seq<Edge>)
    requires DistinctIds(edges)
    ensures var a := ScanEdges(c, s, output, fromFanIn, edges);
      forall n :: n in a.seen <==> Reached(c, s, output, edges, n)
  {
    hide Condition, Eligible;
    if edges != [] {
      var front, e := edges[..|edges| - 1], edges[|edges| - 1];
      ScanSeenExact(c, s, output, fromFanIn, front);
      ScanCountsExact(c, s, output, fromFanIn, front);
      assert forall x :: x in edges <==> x in front || x == e;
      FirstTraversal(c, s, output, edges);
    }
  }

  lemma {:induction false} ScanReadyExact(c: Config, s: State, output: Json, fromFanIn: bool, edges: seq<Edge>)
    requires CountsBounded(c, s.counts)
    ensures var a := ScanEdges(c, s, output, fromFanIn, edges);
      forall n :: HasReady(a.ready, n) <==> n in a.seen && Eligible(c, s, s.counts, n)
  {
    hide Passes, Eligible;
    if edges != [] {
      var front, e := edges[..|edges| - 1], edges[|edges| - 1];
      ScanReadyExact(c, s, output, fromFanIn, front);
      ScanCounts(c, s, output, fromFanIn, edges);
      var a, a' := ScanEdges(c, s, output, fromFanIn, front), ScanEdges(c, s, output, fromFanIn, edges);
      EligibleIgnoresCounts(c, s, a'.counts, s.counts, e.to);
      forall n ensures HasReady(a'.ready, n) <==> n in a'.seen && Eligible(c, s, s.counts, n) {
        assert HasReady(a'.ready, n) <==> HasReady(a.ready, n) || (|a'.ready| > |a.ready| && n == e.to) by {
          if |a'.ready| > |a.ready| {
            var r := a'.ready[|a.ready|];
            assert forall x :: x in a'.ready <==> x in a.ready || x == r;
          }
        }
      }
    }
  }

  /** Exactly the eligible targets of passing edges are returned, and exactly the passing edges
      are counted, both judged by the counts before the scan. */
  lemma ScanExact(c: Config, s: State, output: Json, fromFanIn: bool, edges: seq<Edge>)
    requires CountsBounded(c, s.counts) && DistinctIds(edges)
    ensures var a := ScanEdges(c, s, output, fromFanIn, edges);
      && (forall n :: HasReady(a.ready, n) <==> Reached(c, s, output, edges, n) && Eligible(c, s, s.counts, n))
      && (forall id :: Count(a.counts, id) == Count(s.counts, id) + if Traversed(c, s, output, edges, id) then 1 else 0)
  {
    hide ScanEdges, Eligible, Reached, Traversed, HasReady;
    ScanCountsExact(c, s, output, fromFanIn, edges);
    ScanSeenExact(c, s, output, fromFanIn, edges);
    ScanReadyExact(c, s, output, fromFanIn, edges);
  }

  // ---- Counting tasks ----

  type Key = (NodeId, Option<nat>)

  function KeyOf(t: Task): Key { (t.node, t.index) }

  /** How many in-flight tasks have this node and instance index. */
  function Tally(tasks: seq<Task>, key: Key): nat {
    if tasks == [] then 0
    else Tally(tasks[..|tasks| - 1], key) + if KeyOf(tasks[|tasks| - 1]) == key then 1 else 0
  }

  lemma {:induction false} TallyConcat(a: seq<Task>, b: seq<Task>, key: Key)
    ensures Tally(a + b, key) == Tally(a, key) + Tally(b, key)
  {
    if b == [] {
      assert a + b == a;
    } else {
      TallyConcat(a, b[..|b| - 1], key);
      assert (a + b)[..|a + b| - 1] == a + b[..|b| - 1];
    }
  }

  lemma TallyOne(t: Task, key: Key)
    ensures Tally([t], key) == if KeyOf(t) == key then 1 else 0
  {
  }

  lemma TallyRemove(tasks: seq<Task>, k: nat, key: Key)
    requires k < |tasks|
    ensures Tally(tasks, key) == Tally(tasks[..k] + tasks[k + 1..], key) + if KeyOf(tasks[k]) == key then 1 else 0
  {
    hide Tally;
    assert tasks == tasks[..k] + ([tasks[k]] + tasks[k + 1..]);
    TallyConcat(tasks[..k], [tasks[k]] + tasks[k + 1..], key);
    TallyConcat([tasks[k]], tasks[k + 1..], key);
    TallyConcat(tasks[..k], tasks[k + 1..], key);
    TallyOne(tasks[k], key);
  }

  lemma {:induction false} TallyMember(tasks: seq<Task>, t: Task)
    requires t in tasks
    ensures Tally(tasks, KeyOf(t)) >= 1
  {
    if t != tasks[|tasks| - 1] {
      assert t in tasks[..|tasks| - 1];
      TallyMember(tasks[..|tasks| - 1], t);
    }
  }

  lemma {:induction false} TallyWitness(tasks: seq<Task>, key: Key)
    requires Tally(tasks, key) >= 1
    ensures exists k :: 0 <= k < |tasks| && KeyOf(tasks[k]) == key
  {
    if KeyOf(tasks[|tasks| - 1]) != key {
      TallyWitness(tasks[..|tasks| - 1], key);
      var k :| 0 <= k < |tasks| - 1 && KeyOf(tasks[..|tasks| - 1][k]) == key;
      assert KeyOf(tasks[k]) == key;
    }
  }

  lemma {:induction false} TallyFanOut(n: NodeId, items: seq<Json>, key: Key)
    ensures Tally(FanOutTasks(n, items), key) ==
      if key.0 == n && key.1.Some? && key.1.value < |items| then 1 else 0
  {
    var tasks := FanOutTasks(n, items);
    if items != [] {
      var front := items[..|items| - 1];
      TallyFanOut(n, front, key);
      assert tasks[..|tasks| - 1] == FanOutTasks(n, front);
    }
  }

  // ---- The books ----

  ghost function EmptySlots(f: FanOut): set<nat> {
    set i: nat | i < |f.results| && f.results[i].None?
  }

  /** A fan-out under way: some slot is still empty, and `completed` counts the others. */
  ghost predicate FanOutOpen(f: FanOut) {
    |f.results| == f.expected && f.completed < f.expected && |EmptySlots(f)| == f.expected - f.completed
  }

  ghost function InstanceDue(fan: map<NodeId, FanOut>, n: NodeId, i: nat): nat {
    if n in fan && i in EmptySlots(fan[n]) then 1 else 0
  }

  /** One in-flight instance for every empty slot of every fan-out, and no other instance. */
  ghost predicate FanBooks(s: State) {
    && (forall n :: n in s.fan ==> FanOutOpen(s.fan[n]))
    && (forall n, i :: Tally(s.tasks, (n, Some(i))) == InstanceDue(s.fan, n, i))
  }

  /** A running node has a task. */
  ghost predicate RunningHasTask(s: State) {
    forall n :: n in s.running ==> Tally(s.tasks, (n, None)) >= 1
  }

  ghost predicate InGraph(c: Config, s: State) {
    var nodes := Elements(c.graph.nodes);
    && s.completed <= nodes && s.failed <= nodes && s.running <= nodes && s.fan.Keys <= nodes
    && (forall t :: t in s.tasks ==> t.node in nodes)
    && CountsBounded(c, s.counts)
  }

  ghost predicate Books(c: Config, s: State) {
    InGraph(c, s) && FanBooks(s) && RunningHasTask(s)
  }

  // ---- Spawning keeps the books ----

  lemma {:induction false} FreshSlots(n: nat)
    ensures |EmptySlots(NewFanOut(n))| == n
    ensures forall i: nat :: i in EmptySlots(NewFanOut(n)) <==> i < n
  {
    if n > 0 {
      FreshSlots(n - 1);
      assert EmptySlots(NewFanOut(n)) == EmptySlots(NewFanOut(n - 1)) + {n - 1};
    }
  }

  lemma SpawnNormalBooks(c: Config, s: State, n: NodeId)
    requires Books(c, s) && n in c.graph.nodes
    ensures Books(c, SpawnNormal(c, s, n))
  {
  }

  lemma SpawnFanOutBooks(c: Config, s: State, n: NodeId, items: seq<Json>)
    requires Books(c, s) && n in c.graph.nodes && items != []
    requires n !in s.fan
    ensures Books(c, AddTasks(s.(fan := s.fan[n := NewFanOut(|items|)]), FanOutTasks(n, items)))
  {
    hide Tally, EmptySlots;
    FreshSlots(|items|);
    var s' := AddTasks(s.(fan := s.fan[n := NewFanOut(|items|)]), FanOutTasks(n, items));
    forall key
      ensures Tally(s'.tasks, key) ==
        Tally(s.tasks, key) + if key.0 == n && key.1.Some? && key.1.value < |items| then 1 else 0
    {
      TallyConcat(s.tasks, FanOutTasks(n, items), key);
      TallyFanOut(n, items, key);
    }
  }

  lemma SpawnBooks(c: Config, s: State, r: ReadyNode)
    requires Books(c, s) && r.node in c.graph.nodes
    requires r.node !in s.fan && (r.items.Some? ==> r.items.value != [])
    ensures Books(c, Spawn(c, s, r))
  {
    var s1 := if r.isCycle then s.(completed := s.completed - {r.node}) else s;
    assert Books(c, s1);
    match r.items {
      case Some(items) => SpawnFanOutBooks(c, s1, r.node, items);
      case None => SpawnNormalBooks(c, s1, r.node);
    }
  }

  /** Spawning other nodes leaves a node's standing alone. */
  lemma {:induction false} SpawnAllFrame(c: Config, s: State, ready: seq<ReadyNode>, n: NodeId)
    requires forall r :: r in ready ==> r.node != n
    ensures var s' := SpawnAll(c, s, ready);
      && (n in s'.running <==> n in s.running)
      && (n in s'.completed <==> n in s.completed)
      && (n in s'.fan <==> n in s.fan)
      && s'.failed == s.failed && s'.counts == s.counts && s'.outputs == s.outputs
  {
    hide ResolveInputs;
    if ready != [] {
      SpawnAllFrame(c, s, ready[..|ready| - 1], n);
    }
  }

  lemma {:induction false} SpawnAllBooks(c: Config, s: State, ready: seq<ReadyNode>)
    requires Books(c, s) && EndpointsExist(c.graph) && DistinctNodes(ready)
    requires forall r :: r in ready ==> Startable(c, s, r)
    ensures Books(c, SpawnAll(c, s, ready))
  {
    if ready != [] {
      var front, r := ready[..|ready| - 1], ready[|ready| - 1];
      SpawnAllBooks(c, s, front);
      SpawnAllFrame(c, s, front, r.node);
      assert Startable(c, s, r);
      SpawnBooks(c, SpawnAll(c, s, front), r);
    }
  }

  lemma DownstreamBooks(c: Config, s: State, n: NodeId, output: Json, fromFanIn: bool)
    requires Books(c, s) && EndpointsExist(c.graph)
    ensures Books(c, Downstream(c, s, n, output, fromFanIn))
  {
    hide Tally, ScanEdges, SpawnAll, IsNodeReady;
    var a := ScanEdges(c, s, output, fromFanIn, Out(c, n));
    ScanReady(c, s, output, fromFanIn, Out(c, n));
    ScanCounts(c, s, output, fromFanIn, Out(c, n));
    var s1 := s.(counts := a.counts);
    assert Books(c, s1);
    forall r | r in a.ready ensures Startable(c, s1, r) {
      assert Startable(c, s, r);
    }
    SpawnAllBooks(c, s1, a.ready);
  }

  // ---- Finishing a task keeps the books ----

  /** The state with task `k` taken out of flight. */
  function Taken(s: State, k: nat, o: Outcome): State
    requires k < |s.tasks|
  {
    s.(tasks := s.tasks[..k] + s.tasks[k + 1..], log := s.log + [Finished(s.tasks[k], o)])
  }

  lemma TakenTally(s: State, k: nat, o: Outcome)
    requires k < |s.tasks|
    ensures forall key ::
      Tally(s.tasks, key) == Tally(Taken(s, k, o).tasks, key) + if KeyOf(s.tasks[k]) == key then 1 else 0
  {
    forall key
      ensures Tally(s.tasks, key) == Tally(Taken(s, k, o).tasks, key) + if KeyOf(s.tasks[k]) == key then 1 else 0
    {
      TallyRemove(s.tasks, k, key);
    }
  }

  lemma FillSlots(f: FanOut, i: nat, o: Outcome)
    requires FanOutOpen(f) && i in EmptySlots(f)
    ensures var f' := Fill(f, i, o);
      && EmptySlots(f') == EmptySlots(f) - {i}
      && |EmptySlots(f')| == f'.expected - f'.completed
      && |f'.results| == f'.expected && f'.completed <= f'.expected
  {
  }

  /** An instance in flight has an empty slot waiting for it. */
  lemma InstanceHasSlot(c: Config, s: State, k: nat)
    requires Books(c, s) && k < |s.tasks| && s.tasks[k].index.Some?
    ensures s.tasks[k].node in s.fan && FanOutOpen(s.fan[s.tasks[k].node])
    ensures s.tasks[k].index.value in EmptySlots(s.fan[s.tasks[k].node])
  {
    TallyRemove(s.tasks, k, KeyOf(s.tasks[k]));
  }

  /** The state just after an instance has filled the last slot, before its edges are looked at. */
  function FanInState(s: State, n: NodeId, merged: seq<Json>): State {
    s.(completed := s.completed + {n},
       outputs := s.outputs[n := Array(merged)],
       fan := s.fan - {n},
       log := s.log + [FannedIn(n, merged), Done(n)])
  }

  lemma FillBooks(c: Config, s: State, k: nat, o: Outcome)
    requires Books(c, s) && k < |s.tasks| && s.tasks[k].index.Some?
    ensures var t := s.tasks[k];
      t.node in s.fan &&
      var f := Fill(s.fan[t.node], t.index.value, o);
      var s1 := Taken(s, k, o);
      if f.completed == f.expected then Books(c, FanInState(s1, t.node, Merged(f.results)))
      else Books(c, s1.(fan := s1.fan[t.node := f]))
  {
    hide Books, EmptySlots, Merged, Fill;
    var t := s.tasks[k];
    InstanceHasSlot(c, s, k);
    FillSlots(s.fan[t.node], t.index.value, o);
    var f := Fill(s.fan[t.node], t.index.value, o);
    if f.completed == f.expected {
      FanInBooks(c, s, k, o, f, Merged(f.results));
    } else {
      SlotBooks(c, s, k, o, f);
    }
  }

  /** `f` is the fan-out of the finished instance with its slot filled. */
  ghost predicate Filled(s: State, k: nat, f: FanOut) {
    && k < |s.tasks| && s.tasks[k].index.Some? && s.tasks[k].node in s.fan
    && EmptySlots(f) == EmptySlots(s.fan[s.tasks[k].node]) - {s.tasks[k].index.value}
    && |EmptySlots(f)| == f.expected - f.completed && |f.results| == f.expected && f.completed <= f.expected
    && s.tasks[k].index.value in EmptySlots(s.fan[s.tasks[k].node])
  }

  lemma FanInBooks(c: Config, s: State, k: nat, o: Outcome, f: FanOut, merged: seq<Json>)
    requires Books(c, s) && Filled(s, k, f) && f.completed == f.expected
    ensures Books(c, FanInState(Taken(s, k, o), s.tasks[k].node, merged))
  {
    hide Tally, EmptySlots;
    TakenTally(s, k, o);
    assert EmptySlots(f) == {};
  }

  lemma SlotBooks(c: Config, s: State, k: nat, o: Outcome, f: FanOut)
    requires Books(c, s) && Filled(s, k, f) && f.completed != f.expected
    ensures var s1 := Taken(s, k, o); Books(c, s1.(fan := s1.fan[s.tasks[k].node := f]))
  {
    hide Tally, EmptySlots;
    TakenTally(s, k, o);
  }

  /** The state just after a normal task, before its edges are looked at. */
  function SuccessState(s: State, n: NodeId, v: Json): State {
    s.(running := s.running - {n}, log := s.log + [Done(n)],
       completed := s.completed + {n}, outputs := s.outputs[n := v])
  }

  function FailureState(s: State, n: NodeId): State {
    s.(running := s.running - {n}, log := s.log + [Done(n)], failed := s.failed + {n})
  }

  lemma NormalBooks(c: Config, s: State, k: nat, o: Outcome, v: Json)
    requires Books(c, s) && k < |s.tasks| && s.tasks[k].index.None?
    ensures Books(c, SuccessState(Taken(s, k, o), s.tasks[k].node, v))
    ensures Books(c, FailureState(Taken(s, k, o), s.tasks[k].node))
  {
    hide Tally, EmptySlots;
    TakenTally(s, k, o);
  }

  lemma {:induction false} AfterFailureTargets(c: Config, s: State, edges: seq<Edge>)
    requires forall e :: e in edges ==> e in c.graph.edges
    ensures forall n :: n in ReadyAfterFailure(c, s, edges) ==>
      RunnableAfterFailure(c, s, n) && exists e :: e in c.graph.edges && e.to == n
  {
    if edges != [] {
      AfterFailureTargets(c, s, edges[..|edges| - 1]);
    }
  }

  lemma {:induction false} SpawnAllNormalBooks(c: Config, s: State, nodes: seq<NodeId>)
    requires Books(c, s) && forall n :: n in nodes ==> n in c.graph.nodes
    ensures Books(c, SpawnAllNormal(c, s, nodes)) && SpawnAllNormal(c, s, nodes).failed == s.failed
  {
    if nodes != [] {
      SpawnAllNormalBooks(c, s, nodes[..|nodes| - 1]);
      SpawnNormalBooks(c, SpawnAllNormal(c, s, nodes[..|nodes| - 1]), nodes[|nodes| - 1]);
    }
  }

  /** A step, one case at a time, in terms of the states named above. */
  lemma StepCases(c: Config, s: State, k: nat, o: Outcome)
    requires k < |s.tasks|
    ensures var t, s1 := s.tasks[k], Taken(s, k, o);
      Step(c, s, k, o) ==
      if t.index.Some? then
        if t.node !in s.fan then s1
        else
          var f := Fill(s.fan[t.node], t.index.value, o);
          if f.completed == f.expected
          then Downstream(c, FanInState(s1, t.node, Merged(f.results)), t.node, Array(Merged(f.results)), true)
          else s1.(fan := s1.fan[t.node := f])
      else if o.Success? then Downstream(c, SuccessState(s1, t.node, o.value), t.node, o.value, false)
      else
        var s2 := FailureState(s1, t.node);
        SpawnAllNormal(c, s2, ReadyAfterFailure(c, s2, Out(c, t.node)))
  {
  }

  lemma StepBooks(c: Config, s: State, k: nat, o: Outcome)
    requires Books(c, s) && EndpointsExist(c.graph) && k < |s.tasks|
    ensures Books(c, Step(c, s, k, o))
  {
    StepCases(c, s, k, o);
    hide Books, Step, Merged, Downstream, SpawnAllNormal, ReadyAfterFailure;
    var t, s1 := s.tasks[k], Taken(s, k, o);
    if t.index.Some? {
      FillBooks(c, s, k, o);
      var f := Fill(s.fan[t.node], t.index.value, o);
      if f.completed == f.expected {
        DownstreamBooks(c, FanInState(s1, t.node, Merged(f.results)), t.node, Array(Merged(f.results)), true);
      }
    } else if o.Success? {
      NormalBooks(c, s, k, o, o.value);
      DownstreamBooks(c, SuccessState(s1, t.node, o.value), t.node, o.value, false);
    } else {
      NormalBooks(c, s, k, o, Null);
      var s2 := FailureState(s1, t.node);
      AfterFailureTargets(c, s2, Out(c, t.node));
      SpawnAllNormalBooks(c, s2, ReadyAfterFailure(c, s2, Out(c, t.node)));
    }
  }

  // ---- Whole runs ----

  lemma {:induction false} EntryNodesDistinct(g: Graph, back: set<EdgeId>, nodes: seq<NodeId>)
    requires Distinct(nodes)
    ensures Distinct(BackEdges.EntryNodesIn(g, back, nodes))
  {
    if nodes != [] {
      EntryNodesDistinct(g, back, nodes[1..]);
      assert nodes[0] !in nodes[1..];
    }
  }

  lemma {:induction false} TallyEntries(c: Config, nodes: seq<NodeId>, key: Key)
    requires Distinct(nodes)
    ensures Tally(EntryTasks(c, nodes), key) == if key.0 in nodes && key.1.None? then 1 else 0
  {
    if nodes != [] {
      var front := nodes[..|nodes| - 1];
      TallyEntries(c, front, key);
      assert EntryTasks(c, nodes)[..|nodes| - 1] == EntryTasks(c, front);
      assert nodes[|nodes| - 1] !in front;
      assert key.0 in nodes <==> key.0 in front || key.0 == nodes[|nodes| - 1];
    }
  }

  lemma InitTally(c: Config, key: Key)
    requires Distinct(c.graph.nodes)
    ensures Tally(Init(c).tasks, key) == if key.0 in Init(c).running && key.1.None? then 1 else 0
  {
    var entries := BackEdges.EntryNodes(c.graph, c.back);
    EntryNodesDistinct(c.graph, c.back, c.graph.nodes);
    assert Init(c).tasks == EntryTasks(c, entries);
    TallyEntries(c, entries, key);
  }

  lemma InitShape(c: Config)
    ensures var s := Init(c);
      && s.completed == {} && s.failed == {} && s.fan == map[] && s.counts == map[]
      && s.running <= Elements(c.graph.nodes)
      && (forall t :: t in s.tasks ==> t.node in c.graph.nodes)
  {
  }

  lemma InitBooks(c: Config)
    requires Distinct(c.graph.nodes)
    ensures Books(c, Init(c))
  {
    hide Tally, Init;
    InitShape(c);
    forall key ensures Tally(Init(c).tasks, key) == if key.0 in Init(c).running && key.1.None? then 1 else 0 {
      InitTally(c, key);
    }
  }

  /** The books hold in every state of every run, whatever finishes when and however. */
  lemma {:induction false} RunBooks(c: Config, choices: seq<Choice>)
    requires ValidGraph(c.graph)
    ensures Books(c, Run(c, choices))
  {
    hide Books, Step, Init;
    if choices == [] {
      InitBooks(c);
    } else {
      RunBooks(c, choices[..|choices| - 1]);
      var s, ch := Run(c, choices[..|choices| - 1]), choices[|choices| - 1];
      if ch.k < |s.tasks| {
        StepBooks(c, s, ch.k, ch.outcome);
      }
    }
  }

  /** For a node being fanned out: the instances in flight are exactly the empty slots,
      one each, and there are `expected - completed` of them, never none. */
  lemma FanOutInstances(c: Config, choices: seq<Choice>, n: NodeId)
    requires ValidGraph(c.graph) && n in Run(c, choices).fan
    ensures var s := Run(c, choices);
      var f := s.fan[n];
      && |f.results| == f.expected
      && (forall i: nat :: Tally(s.tasks, (n, Some(i))) == if i < f.expected && f.results[i].None? then 1 else 0)
      && 0 < |EmptySlots(f)| == f.expected - f.completed
  {
    hide Run, Tally;
    RunBooks(c, choices);
    var s := Run(c, choices);
    forall i: nat ensures Tally(s.tasks, (n, Some(i))) == InstanceDue(s.fan, n, i) {}
  }

  // ---- What a failure does to the books ----

  /** Edges of the failed node that lead to `n`. */
  function Parallel(edges: seq<Edge>, n: NodeId): nat {
    if edges == [] then 0
    else Parallel(edges[..|edges| - 1], n) + if edges[|edges| - 1].to == n then 1 else 0
  }

  /** After a failure a runnable target is started once for every edge that leads to it, and
      nothing else is: two parallel edges put two normal tasks of one node in flight. */
  lemma {:induction false} StartsAfterFailure(c: Config, s: State, edges: seq<Edge>, n: NodeId)
    ensures var s' := SpawnAllNormal(c, s, ReadyAfterFailure(c, s, edges));
      Tally(s'.tasks, (n, None)) ==
      Tally(s.tasks, (n, None)) + if RunnableAfterFailure(c, s, n) then Parallel(edges, n) else 0
  {
    hide ResolveInputs, RunnableAfterFailure, Tally;
    if edges != [] {
      var front, m := edges[..|edges| - 1], edges[|edges| - 1].to;
      StartsAfterFailure(c, s, front, n);
      if RunnableAfterFailure(c, s, m) {
        var nodes := ReadyAfterFailure(c, s, front);
        assert (nodes + [m])[..|nodes|] == nodes;
        var s1 := SpawnAllNormal(c, s, nodes);
        var t := Task(m, None, ResolveInputs(c, s1.outputs, m));
        TallyConcat(s1.tasks, [t], (n, None));
        TallyOne(t, (n, None));
      }
    }
  }

  // ---- Final status ----

  lemma SubsetCard<T>(a: set<T>, b: set<T>)
    requires a <= b
    ensures |a| <= |b| && (a != b ==> |a| < |b|)
  {
    assert b == a + (b - a);
    if a != b {
      assert |b - a| > 0 by { var x :| x in b - a; }
    }
  }

  /** A run that stops with nothing in flight is Completed exactly when no node failed and
      every node of the graph completed; otherwise it is Failed. */
  lemma FinalStatusExact(c: Config, choices: seq<Choice>)
    requires ValidGraph(c.graph) && Run(c, choices).tasks == []
    ensures var s := Run(c, choices);
      var status := FinalStatus(c, s, false);
      && (status == Completed <==> s.failed == {} && forall n :: n in c.graph.nodes ==> n in s.completed)
      && (status == RunStatus.Failed <==> s.failed != {} || exists n :: n in c.graph.nodes && n !in s.completed)
      && FinalStatus(c, s, true) == Cancelled
  {
    hide Run;
    RunBooks(c, choices);
    var s := Run(c, choices);
    forall n ensures n !in s.running {}
    var nodes := Elements(c.graph.nodes);
    SubsetCard(s.completed, nodes);
    if s.failed == {} && s.completed != nodes {
      var n :| n in nodes && n !in s.completed;
      assert !AllDone(c, s);
    }
  }
}
