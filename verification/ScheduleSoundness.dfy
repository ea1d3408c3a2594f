/** Acyclic flows with deterministic handlers: whatever the completion order, what runs is part of
    a sequential evaluation in topological order, with its inputs and outputs, each node once. */
module ScheduleSoundness {
  import opened Common
  import opened Graph
  import BackEdges
  import opened Scheduler
  import opened SchedulerBooks
  import opened SchedulerRunning

  type Handler = (NodeId, Json) -> Json

  // ---- The reference: evaluate nodes one by one in topological order ----

  type Results = map<NodeId, Json>

  predicate Activated(c: Config, m: Results, n: NodeId) {
    || In(c, n) == []
    || (&& (forall e :: e in In(c, n) ==> e.from in m)
        && (exists e :: e in In(c, n) && e.from in m && Condition(e, m[e.from])))
  }

  function InputFor(c: Config, m: Results, n: NodeId): Json {
    if In(c, n) == [] then c.inputs else ResolveInputs(c, m, n)
  }

  /** A node runs when all its sources have run and some edge into it holds. */
  function Sequential(c: Config, h: Handler, order: seq<NodeId>): Results {
    if order == [] then map[]
    else
      var m, n := Sequential(c, h, order[..|order| - 1]), order[|order| - 1];
      if Activated(c, m, n) then m[n := h(n, InputFor(c, m, n))] else m
  }

  /** The equations the sequential evaluation solves. */
  ghost predicate Solves(c: Config, h: Handler, m: Results, n: NodeId) {
    (n in m <==> Activated(c, m, n)) && (n in m ==> m[n] == h(n, InputFor(c, m, n)))
  }

  ghost predicate SameAt(a: Results, b: Results, n: NodeId) {
    (n in a <==> n in b) && (n in a && n in b ==> a[n] == b[n])
  }

  lemma {:induction false} MergeAgrees(edges: seq<Edge>, a: Results, b: Results)
    requires forall e :: e in edges ==> SameAt(a, b, e.from)
    ensures Merge(edges, a) == Merge(edges, b)
  {
    hide EdgeValue;
    if edges != [] {
      assert edges[|edges| - 1] in edges;
      MergeAgrees(edges[..|edges| - 1], a, b);
    }
  }

  /** Activation and input of a node depend only on the results of its sources. */
  lemma DependsOnSources(c: Config, h: Handler, a: Results, b: Results, n: NodeId)
    requires forall e :: e in In(c, n) ==> SameAt(a, b, e.from)
    ensures Activated(c, a, n) <==> Activated(c, b, n)
    ensures InputFor(c, a, n) == InputFor(c, b, n)
  {
    hide Condition;
    MergeAgrees(In(c, n), a, b);
  }

  lemma {:induction false} SequentialKeys(c: Config, h: Handler, order: seq<NodeId>)
    ensures Sequential(c, h, order).Keys <= Elements(order)
  {
    hide Activated, InputFor;
    if order != [] {
      SequentialKeys(c, h, order[..|order| - 1]);
    }
  }

  lemma {:induction false} SequentialSolves(c: Config, h: Handler, order: seq<NodeId>, i: nat)
    requires TopologicalOrder(c.graph, order) && i <= |order|
    ensures forall j :: 0 <= j < i ==> Solves(c, h, Sequential(c, h, order[..i]), order[j])
  {
    hide Activated, InputFor;
    if i > 0 {
      var m, m' := Sequential(c, h, order[..i - 1]), Sequential(c, h, order[..i]);
      assert order[..i][..i - 1] == order[..i - 1];
      SequentialSolves(c, h, order, i - 1);
      SequentialKeys(c, h, order[..i - 1]);
      var n := order[i - 1];
      assert n !in order[..i - 1];
      forall j | 0 <= j < i ensures Solves(c, h, m', order[j]) {
        forall e | e in In(c, order[j]) ensures SameAt(m', m, e.from) {
          assert e.from in order[..j];
        }
        DependsOnSources(c, h, m', m, order[j]);
        if j < i - 1 {
          assert Solves(c, h, m, order[j]);
        }
      }
    }
  }

  // ---- What is assumed ----

  /** The edge holds and carries a non-empty array. */
  predicate FansOut(e: Edge, output: Json) { Condition(e, output) && FanOutItems(output, e, false).Some? }

  ghost predicate NoFanOut(c: Config, m: Results) {
    forall e :: e in c.graph.edges && e.from in m ==> !FansOut(e, m[e.from])
  }

  /** `m` is the meaning of the flow: what is to run, and with what result. */
  ghost predicate Meaning(c: Config, h: Handler, m: Results) {
    && ValidGraph(c.graph) && c.back == {} && c.maxTraversals >= 1
    && NoFanOut(c, m)
    && m.Keys <= Elements(c.graph.nodes)
    && forall n :: n in c.graph.nodes ==> Solves(c, h, m, n)
  }

  lemma MeaningShape(c: Config, h: Handler, m: Results)
    requires Meaning(c, h, m)
    ensures Distinct(c.graph.nodes) && c.back == {} && forall n :: n in m ==> n in c.graph.nodes
  {
  }

  // ---- Runs of deterministic handlers ----

  function StepWith(c: Config, h: Handler, s: State, k: nat): State {
    if k < |s.tasks| then Step(c, s, k, Success(h(s.tasks[k].node, s.tasks[k].input))) else s
  }

  /** `picks` chooses which in-flight task finishes next; the handler decides the outcome. */
  function RunWith(c: Config, h: Handler, picks: seq<nat>): State {
    if picks == [] then Init(c) else StepWith(c, h, RunWith(c, h, picks[..|picks| - 1]), picks[|picks| - 1])
  }

  function TaskFor(c: Config, m: Results, n: NodeId): Task { Task(n, None, InputFor(c, m, n)) }

  function StartCount(log: seq<Entry>, t: Task): nat {
    if log == [] then 0 else StartCount(log[..|log| - 1], t) + if log[|log| - 1] == Started(t) then 1 else 0
  }

  ghost predicate Begun(s: State, n: NodeId) { n in s.running || n in s.completed }

  ghost predicate SourcesCompleted(c: Config, s: State, n: NodeId) {
    forall e :: e in c.graph.edges && e.to == n ==> e.from in s.completed
  }

  ghost predicate SoundTasks(c: Config, m: Results, s: State) {
    forall t :: t in s.tasks ==> t == TaskFor(c, m, t.node) && t.node in s.running
  }

  ghost predicate SoundNodes(c: Config, m: Results, s: State) {
    forall n :: Begun(s, n) ==> n in m && SourcesCompleted(c, s, n)
  }

  ghost predicate SoundOutputs(m: Results, s: State) {
    forall n :: n in s.completed ==> n in s.outputs && n in m && s.outputs[n] == m[n]
  }

  ghost predicate SoundCounts(c: Config, s: State) {
    forall e :: e in c.graph.edges && e.from !in s.completed ==> Count(s.counts, e.id) == 0
  }

  ghost predicate SoundStarts(c: Config, m: Results, s: State) {
    forall t :: StartCount(s.log, t) == if Begun(s, t.node) && t == TaskFor(c, m, t.node) then 1 else 0
  }

  /** What has begun is part of the meaning, with the right inputs and outputs, each once. */
  ghost predicate Sound(c: Config, m: Results, s: State) {
    && s.failed == {} && s.fan == map[]
    && SoundTasks(c, m, s) && SoundNodes(c, m, s) && SoundOutputs(m, s)
    && SoundCounts(c, s) && SoundStarts(c, m, s)
  }

  ghost predicate FullBooks(c: Config, s: State) { Books(c, s) && NodeBooks(s) }

  // ---- Spawning fresh normal nodes ----

  lemma {:induction false} StartCountConcat(a: seq<Entry>, b: seq<Entry>, t: Task)
    ensures StartCount(a + b, t) == StartCount(a, t) + StartCount(b, t)
  {
    if b == [] {
      assert a + b == a;
    } else {
      StartCountConcat(a, b[..|b| - 1], t);
      assert (a + b)[..|a + b| - 1] == a + b[..|b| - 1];
    }
  }

  lemma StartCountOne(x: Entry, t: Task)
    ensures StartCount([x], t) == if x == Started(t) then 1 else 0
  {
  }

  ghost predicate Plain(r: ReadyNode) { r.items == None && !r.isCycle }

  function PlainTask(c: Config, s: State, n: NodeId): Task { Task(n, None, ResolveInputs(c, s.outputs, n)) }

  ghost predicate Spawned(c: Config, s: State, ready: seq<ReadyNode>, t: Task) {
    HasReady(ready, t.node) && t == PlainTask(c, s, t.node)
  }

  /** The effect of starting distinct plain nodes: they run, each with one new task. */
  lemma {:induction false} SpawnPlain(c: Config, s: State, ready: seq<ReadyNode>)
    requires DistinctNodes(ready) && forall r :: r in ready ==> Plain(r)
    ensures var s' := SpawnAll(c, s, ready);
      && s' == s.(running := s'.running, tasks := s'.tasks, log := s'.log)
      && (forall n :: n in s'.running <==> n in s.running || HasReady(ready, n))
      && (forall t :: t in s'.tasks <==> t in s.tasks || Spawned(c, s, ready, t))
      && (forall t :: StartCount(s'.log, t) == StartCount(s.log, t) + if Spawned(c, s, ready, t) then 1 else 0)
  {
    hide ResolveInputs, StartCount;
    if ready != [] {
      var front, r := ready[..|ready| - 1], ready[|ready| - 1];
      SpawnPlain(c, s, front);
      var s1 := SpawnAll(c, s, front);
      var x := PlainTask(c, s, r.node);
      assert r in ready;
      assert SpawnAll(c, s, ready) == AddTasks(s1.(running := s1.running + {r.node}), [x]);
      SpawnPlainLast(c, s, s1, front, r, x);
    }
  }

  lemma SpawnPlainLast(c: Config, s: State, s1: State, front: seq<ReadyNode>, r: ReadyNode, x: Task)
    requires DistinctNodes(front + [r]) && x == PlainTask(c, s, r.node)
    requires forall n :: n in s1.running <==> n in s.running || HasReady(front, n)
    requires forall t :: t in s1.tasks <==> t in s.tasks || Spawned(c, s, front, t)
    requires forall t :: StartCount(s1.log, t) == StartCount(s.log, t) + if Spawned(c, s, front, t) then 1 else 0
    ensures var s' := AddTasks(s1.(running := s1.running + {r.node}), [x]);
      var ready := front + [r];
      && (forall n :: n in s'.running <==> n in s.running || HasReady(ready, n))
      && (forall t :: t in s'.tasks <==> t in s.tasks || Spawned(c, s, ready, t))
      && (forall t :: StartCount(s'.log, t) == StartCount(s.log, t) + if Spawned(c, s, ready, t) then 1 else 0)
  {
    hide ResolveInputs, StartCount;
    var ready := front + [r];
    forall n ensures HasReady(ready, n) <==> HasReady(front, n) || n == r.node {
      assert forall y :: y in ready <==> y in front || y == r;
    }
    assert !HasReady(front, r.node) by {
      forall y | y in front ensures y.node != r.node {
        var i :| 0 <= i < |front| && front[i] == y;
        assert ready[i] == y && ready[|front|] == r;
      }
    }
    assert StartEntries([x]) == [Started(x)];
    forall t ensures StartCount(s1.log + [Started(x)], t) == StartCount(s1.log, t) + if t == x then 1 else 0 {
      StartCountConcat(s1.log, [Started(x)], t);
      StartCountOne(Started(x), t);
    }
  }

  // ---- A task finishes: before its edges are looked at ----

  /** The other tasks in flight belong to other nodes. */
  lemma OthersInFlight(c: Config, m: Results, s: State, k: nat, o: Outcome)
    requires FullBooks(c, s) && Sound(c, m, s) && k < |s.tasks|
    ensures var s1 := Taken(s, k, o);
      && s.tasks[k].index == None && s.tasks[k].node in s.running && s.tasks[k].node !in s.completed
      && (forall t :: t in s1.tasks ==> t in s.tasks && t.node != s.tasks[k].node)
  {
    hide Tally, StartCount;
    var x, s1 := s.tasks[k], Taken(s, k, o);
    assert x in s.tasks && x == TaskFor(c, m, x.node);
    TakenTally(s, k, o);
    assert Tally(s.tasks, (x.node, None)) == RunningDue(s, x.node);
    forall t | t in s1.tasks ensures t in s.tasks && t.node != x.node {
      assert t in s.tasks && t == TaskFor(c, m, t.node);
      TallyMember(s1.tasks, t);
    }
  }

  lemma FinishStarts(c: Config, m: Results, s: State, s2: State, x: Entry, y: Entry)
    requires SoundStarts(c, m, s) && !x.Started? && !y.Started? && s2.log == s.log + [x] + [y]
    requires forall n :: Begun(s2, n) <==> Begun(s, n)
    ensures SoundStarts(c, m, s2)
  {
  }

  /** The node moves from running to completed with its proper result; all else stands. */
  lemma FinishSound(c: Config, h: Handler, m: Results, s: State, k: nat)
    requires Meaning(c, h, m) && FullBooks(c, s) && Sound(c, m, s) && k < |s.tasks|
    ensures var t := s.tasks[k];
      var v := h(t.node, t.input);
      var s2 := SuccessState(Taken(s, k, Success(v)), t.node, v);
      && t.node in m && v == m[t.node]
      && Sound(c, m, s2) && (forall n :: Begun(s2, n) <==> Begun(s, n))
  {
    var t := s.tasks[k];
    var v := h(t.node, t.input);
    OthersInFlight(c, m, s, k, Success(v));
    assert t in s.tasks && t == TaskFor(c, m, t.node) && Begun(s, t.node);
    assert Solves(c, h, m, t.node);
    hide FullBooks, SoundTasks, SoundNodes, SoundOutputs, SoundCounts, SoundStarts, Meaning, TaskFor, Solves;
    var s2 := SuccessState(Taken(s, k, Success(v)), t.node, v);
    FinishTasks(c, m, s, s2, t.node);
    FinishNodes(c, m, s, s2, t.node);
    assert s2.log == s.log + [Finished(t, Success(v))] + [Done(t.node)];
    FinishStarts(c, m, s, s2, Finished(t, Success(v)), Done(t.node));
  }

  lemma FinishTasks(c: Config, m: Results, s: State, s2: State, n: NodeId)
    requires SoundTasks(c, m, s) && s2.running == s.running - {n}
    requires forall t :: t in s2.tasks ==> t in s.tasks && t.node != n
    ensures SoundTasks(c, m, s2)
  {
  }

  lemma FinishNodes(c: Config, m: Results, s: State, s2: State, n: NodeId)
    requires SoundNodes(c, m, s) && SoundOutputs(m, s) && SoundCounts(c, s) && n in s.running && n in m
    requires s2.running == s.running - {n} && s2.completed == s.completed + {n} && s2.counts == s.counts
    requires s2.outputs == s.outputs[n := m[n]]
    ensures SoundNodes(c, m, s2) && SoundOutputs(m, s2) && SoundCounts(c, s2)
    ensures forall x :: Begun(s2, x) <==> Begun(s, x)
  {
    forall x | Begun(s2, x) ensures x in m && SourcesCompleted(c, s2, x) {
      assert Begun(s, x) && SourcesCompleted(c, s, x);
    }
  }

  /** The edges of the finished node are untraversed and their targets have not begun. */
  lemma FinishFresh(c: Config, m: Results, s: State, k: nat, v: Json)
    requires FullBooks(c, s) && Sound(c, m, s) && k < |s.tasks|
    ensures var n := s.tasks[k].node;
      var s2 := SuccessState(Taken(s, k, Success(v)), n, v);
      Fresh(c, s2, n)
  {
    OthersInFlight(c, m, s, k, Success(v));
    hide FullBooks, Tally, StartCount, InputFor, SoundStarts;
    var n := s.tasks[k].node;
    var s2 := SuccessState(Taken(s, k, Success(v)), n, v);
    forall e | e in c.graph.edges && e.from == n ensures Count(s2.counts, e.id) == 0 && !Begun(s2, e.to) {
      assert Begun(s2, e.to) ==> Begun(s, e.to);
    }
  }

  ghost predicate Fresh(c: Config, s: State, n: NodeId) {
    forall e :: e in c.graph.edges && e.from == n ==> Count(s.counts, e.id) == 0 && !Begun(s, e.to)
  }

  // ---- Which nodes the edges wake ----

  /** The edge holds, and reaches the node with these items. */
  predicate Carries(e: Edge, output: Json, fromFanIn: bool, r: ReadyNode) {
    e.to == r.node && Condition(e, output) && r.items == FanOutItems(output, e, fromFanIn)
  }

  ghost predicate CarriedBy(edges: seq<Edge>, output: Json, fromFanIn: bool, r: ReadyNode) {
    exists e :: e in edges && Carries(e, output, fromFanIn, r)
  }

  lemma {:induction false} ScanItems(c: Config, s: State, output: Json, fromFanIn: bool, edges: seq<Edge>)
    ensures forall r :: r in ScanEdges(c, s, output, fromFanIn, edges).ready ==>
      CarriedBy(edges, output, fromFanIn, r)
  {
    hide Condition, Eligible, FanOutItems;
    if edges != [] {
      var front := edges[..|edges| - 1];
      ScanItems(c, s, output, fromFanIn, front);
      forall r | r in ScanEdges(c, s, output, fromFanIn, edges).ready
        ensures CarriedBy(edges, output, fromFanIn, r)
      {
        if r in ScanEdges(c, s, output, fromFanIn, front).ready {
          var e :| e in front && Carries(e, output, fromFanIn, r);
          assert e in edges;
        } else {
          assert edges[|edges| - 1] in edges;
        }
      }
    }
  }

  ghost predicate HasEdge(c: Config, n: NodeId, x: NodeId) {
    exists e :: e in c.graph.edges && e.from == n && e.to == x
  }

  /** An edge from `n` to `x` holds of the result of `n`. */
  ghost predicate Holding(c: Config, m: Results, n: NodeId, x: NodeId) {
    n in m && exists e :: e in c.graph.edges && e.from == n && e.to == x && Condition(e, m[n])
  }

  /** An edge that holds passes. */
  lemma WokenIsReached(c: Config, h: Handler, m: Results, s: State, n: NodeId, x: NodeId)
    requires Meaning(c, h, m) && Sound(c, m, s) && n in s.completed
    requires Fresh(c, s, n)
    requires Holding(c, m, n, x)
    ensures Reached(c, s, m[n], Out(c, n), x)
  {
    hide Condition, SoundStarts, SoundTasks, SoundNodes;
    var e :| e in c.graph.edges && e.from == n && e.to == x && Condition(e, m[n]);
    assert e in Out(c, n) && Passes(c, s.counts, m[n], e);
  }

  lemma WokenIsEligible(c: Config, h: Handler, m: Results, s: State, x: NodeId)
    requires Meaning(c, h, m) && Sound(c, m, s)
    requires x in m && x in c.graph.nodes && SourcesCompleted(c, s, x) && !Begun(s, x)
    requires CountsBounded(c, s.counts)
    ensures Eligible(c, s, s.counts, x)
  {
  }

  /** All sources complete and one edge holding make a node part of the meaning. */
  lemma CompleteSourcesActivate(c: Config, h: Handler, m: Results, s: State, x: NodeId, e: Edge)
    requires Meaning(c, h, m) && SoundOutputs(m, s) && SourcesCompleted(c, s, x)
    requires e in c.graph.edges && e.to == x && e.from in m && Condition(e, m[e.from])
    ensures x in m
  {
    hide Condition, InputFor, NoFanOut;
    assert e in In(c, x) && x in c.graph.nodes;
    assert Activated(c, m, x);
    assert Solves(c, h, m, x);
  }

  lemma EligibleSources(c: Config, s: State, x: NodeId)
    requires c.back == {} && s.failed == {} && !Begun(s, x) && Eligible(c, s, s.counts, x)
    ensures SourcesCompleted(c, s, x)
  {
  }

  lemma ReadyIsWoken(c: Config, h: Handler, m: Results, s: State, n: NodeId, x: NodeId)
    requires Meaning(c, h, m) && Sound(c, m, s) && n in s.completed && n in m
    requires !Begun(s, x) && Reached(c, s, m[n], Out(c, n), x) && Eligible(c, s, s.counts, x)
    ensures x in m && SourcesCompleted(c, s, x) && Holding(c, m, n, x)
  {
    hide Meaning, Condition, Eligible, SourcesCompleted, SoundTasks, SoundNodes, SoundOutputs, SoundCounts, SoundStarts;
    MeaningShape(c, h, m);
    EligibleSources(c, s, x);
    var e :| e in Out(c, n) && e.to == x && Passes(c, s.counts, m[n], e);
    CompleteSourcesActivate(c, h, m, s, x, e);
  }

  /** The scan returns exactly the nodes that are now due, all of them plain. */
  lemma WakesExactly(c: Config, h: Handler, m: Results, s: State, n: NodeId)
    requires Meaning(c, h, m) && Sound(c, m, s) && CountsBounded(c, s.counts) && n in s.completed && n in m
    requires Fresh(c, s, n)
    ensures var a := ScanEdges(c, s, m[n], false, Out(c, n));
      && DistinctNodes(a.ready) && (forall r :: r in a.ready ==> Plain(r))
      && (forall x :: HasReady(a.ready, x) <==> x in m && SourcesCompleted(c, s, x) && Holding(c, m, n, x))
  {
    hide ScanEdges, StartCount, Eligible, Reached, Solves;
    var a := ScanEdges(c, s, m[n], false, Out(c, n));
    OutEdgesDistinctIds(c.graph.edges, n);
    ScanExact(c, s, m[n], false, Out(c, n));
    ScanReady(c, s, m[n], false, Out(c, n));
    ScanItems(c, s, m[n], false, Out(c, n));
    forall r | r in a.ready ensures Plain(r) {
      assert Startable(c, s, r);
      var e :| e in Out(c, n) && Carries(e, m[n], false, r);
      assert !FansOut(e, m[n]);
    }
    forall x ensures HasReady(a.ready, x) <==> x in m && SourcesCompleted(c, s, x) && Holding(c, m, n, x) {
      if HasReady(a.ready, x) {
        assert Reached(c, s, m[n], Out(c, n), x) && Eligible(c, s, s.counts, x);
        assert !Begun(s, x) by { ReachedNotBegun(c, s, m[n], n, x); }
        ReadyIsWoken(c, h, m, s, n, x);
      }
      if x in m && SourcesCompleted(c, s, x) && Holding(c, m, n, x) {
        WokenIsReached(c, h, m, s, n, x);
        WokenIsEligible(c, h, m, s, x);
      }
    }
  }

  lemma ReachedNotBegun(c: Config, s: State, output: Json, n: NodeId, x: NodeId)
    requires Fresh(c, s, n)
    requires Reached(c, s, output, Out(c, n), x)
    ensures !Begun(s, x)
  {
  }

  // ---- A whole step ----

  /** Due nodes get their proper inputs. */
  lemma WokenInput(c: Config, m: Results, s: State, x: NodeId)
    requires Sound(c, m, s) && x in m && SourcesCompleted(c, s, x) && In(c, x) != []
    ensures PlainTask(c, s, x) == TaskFor(c, m, x)
  {
    hide StartCount, EdgeValue;
    forall e | e in In(c, x) ensures SameAt(s.outputs, m, e.from) {
      assert Begun(s, e.from);
    }
    MergeAgrees(In(c, x), s.outputs, m);
  }

  ghost predicate Due(c: Config, m: Results, s: State, n: NodeId, x: NodeId) {
    x in m && SourcesCompleted(c, s, x) && Holding(c, m, n, x)
  }

  ghost predicate NewTask(c: Config, m: Results, s: State, n: NodeId, t: Task) {
    Due(c, m, s, n, t.node) && t == TaskFor(c, m, t.node)
  }

  /** `s'` is `s` with exactly the due nodes started. */
  ghost predicate StartsDue(c: Config, m: Results, s: State, s': State, n: NodeId) {
    && s'.completed == s.completed && s'.outputs == s.outputs && s'.failed == s.failed && s'.fan == s.fan
    && (forall x :: x in s'.running <==> x in s.running || Due(c, m, s, n, x))
    && (forall t :: t in s'.tasks <==> t in s.tasks || NewTask(c, m, s, n, t))
    && (forall t :: StartCount(s'.log, t) == StartCount(s.log, t) + if NewTask(c, m, s, n, t) then 1 else 0)
  }

  lemma DueNotBegun(c: Config, m: Results, s: State, n: NodeId, x: NodeId)
    requires Fresh(c, s, n) && Due(c, m, s, n, x)
    ensures !Begun(s, x) && In(c, x) != []
  {
  }

  lemma SpawnsDue(c: Config, m: Results, s: State, s1: State, n: NodeId, ready: seq<ReadyNode>)
    requires Sound(c, m, s) && Fresh(c, s, n) && s1 == s.(counts := s1.counts)
    requires DistinctNodes(ready) && (forall r :: r in ready ==> Plain(r))
    requires forall x :: HasReady(ready, x) <==> Due(c, m, s, n, x)
    ensures StartsDue(c, m, s, SpawnAll(c, s1, ready), n)
  {
    hide StartCount, SpawnAll, InputFor, ResolveInputs, Fresh, SoundTasks, SoundNodes, SoundOutputs, SoundStarts;
    hide Holding;
    SpawnPlain(c, s1, ready);
    forall t ensures Spawned(c, s1, ready, t) <==> NewTask(c, m, s, n, t) {
      if Due(c, m, s, n, t.node) {
        DueNotBegun(c, m, s, n, t.node);
        WokenInput(c, m, s, t.node);
        assert PlainTask(c, s1, t.node) == PlainTask(c, s, t.node);
      }
    }
  }

  lemma StartedNodesSound(c: Config, m: Results, s: State, s': State, n: NodeId)
    requires SoundNodes(c, m, s) && StartsDue(c, m, s, s', n)
    ensures SoundNodes(c, m, s')
  {
  }

  lemma StartedTasksSound(c: Config, m: Results, s: State, s': State, n: NodeId)
    requires SoundTasks(c, m, s) && SoundStarts(c, m, s) && Fresh(c, s, n) && StartsDue(c, m, s, s', n)
    ensures SoundTasks(c, m, s') && SoundStarts(c, m, s')
  {
  }

  lemma StartedSound(c: Config, m: Results, s: State, s': State, n: NodeId)
    requires Sound(c, m, s) && Fresh(c, s, n) && StartsDue(c, m, s, s', n) && SoundCounts(c, s')
    ensures Sound(c, m, s') && forall x :: Begun(s', x) <==> Begun(s, x) || Due(c, m, s, n, x)
  {
    hide SoundTasks, SoundNodes, SoundStarts, Due, Fresh, NewTask, StartCount;
    StartedNodesSound(c, m, s, s', n);
    StartedTasksSound(c, m, s, s', n);
  }

  lemma WakeSound(c: Config, h: Handler, m: Results, s: State, n: NodeId)
    requires Meaning(c, h, m) && Sound(c, m, s) && CountsBounded(c, s.counts) && n in s.completed && n in m
    requires Fresh(c, s, n)
    ensures var s' := Downstream(c, s, n, m[n], false);
      Sound(c, m, s') && s'.completed == s.completed && forall x :: Begun(s', x) <==> Begun(s, x) || Due(c, m, s, n, x)
  {
    hide ScanEdges, Sound, Meaning, SpawnAll, Fresh, SourcesCompleted, Holding;
    WakesExactly(c, h, m, s, n);
    WakeCounts(c, h, m, s, n);
    var a := ScanEdges(c, s, m[n], false, Out(c, n));
    var s1 := s.(counts := a.counts);
    var s' := SpawnAll(c, s1, a.ready);
    SpawnsDue(c, m, s, s1, n, a.ready);
    SpawnKeepsCounts(c, s1, a.ready);
    StartedSound(c, m, s, s', n);
  }

  lemma SpawnKeepsCounts(c: Config, s: State, ready: seq<ReadyNode>)
    requires DistinctNodes(ready) && (forall r :: r in ready ==> Plain(r))
    ensures SpawnAll(c, s, ready).counts == s.counts
  {
  }

  lemma WakeCounts(c: Config, h: Handler, m: Results, s: State, n: NodeId)
    requires Meaning(c, h, m) && Sound(c, m, s) && CountsBounded(c, s.counts) && n in s.completed
    ensures forall e :: e in c.graph.edges && e.from !in s.completed ==>
      Count(ScanEdges(c, s, m[n], false, Out(c, n)).counts, e.id) == 0
  {
    OutEdgesDistinctIds(c.graph.edges, n);
    ScanExact(c, s, m[n], false, Out(c, n));
    hide ScanEdges, StartCount, Passes;
    forall e | e in c.graph.edges && e.from !in s.completed
      ensures Count(ScanEdges(c, s, m[n], false, Out(c, n)).counts, e.id) == 0
    {
      assert !Traversed(c, s, m[n], Out(c, n), e.id);
    }
  }

  /** Task of `n` finishes: it joins the completed, and exactly what is due begins. */
  ghost predicate Completes(c: Config, m: Results, s: State, n: NodeId, s': State) {
    && n in s.running && n !in s.completed && s'.completed == s.completed + {n}
    && forall x :: Begun(s', x) <==> Begun(s, x) || Due(c, m, s', n, x)
  }

  /** One step of any schedule keeps the run sound and starts exactly what is due. */
  lemma StepSound(c: Config, h: Handler, m: Results, s: State, k: nat)
    requires Meaning(c, h, m) && FullBooks(c, s) && Sound(c, m, s) && k < |s.tasks|
    ensures var s' := StepWith(c, h, s, k);
      FullBooks(c, s') && Sound(c, m, s') && Completes(c, m, s, s.tasks[k].node, s')
  {
    var t := s.tasks[k];
    var v := h(t.node, t.input);
    var s2 := SuccessState(Taken(s, k, Success(v)), t.node, v);
    StepCases(c, s, k, Success(v));
    assert EndpointsExist(c.graph);
    StepBooks(c, s, k, Success(v));
    StepExact(c, s, k, Success(v));
    FinishSound(c, h, m, s, k);
    FinishFresh(c, m, s, k, v);
    OthersInFlight(c, m, s, k, Success(v));
    NormalBooks(c, s, k, Success(v), v);
    assert CountsBounded(c, s2.counts);
    hide Books, NodeBooks, Sound, Meaning, Step, Downstream, Fresh;
    WakeSound(c, h, m, s2, t.node);
    var s' := StepWith(c, h, s, k);
    forall x ensures Due(c, m, s2, t.node, x) <==> Due(c, m, s', t.node, x) {}
  }

  lemma InitRunning(c: Config, n: NodeId)
    requires c.back == {}
    ensures n in Init(c).running <==> n in c.graph.nodes && In(c, n) == []
  {
    EntryHasNoEdges(c, n);
  }

  lemma InitTasks(c: Config, t: Task)
    ensures t in Init(c).tasks ==> t.node in Init(c).running && t == Task(t.node, None, c.inputs)
  {
  }

  lemma InitStarts(c: Config, t: Task)
    requires Distinct(c.graph.nodes)
    ensures StartCount(Init(c).log, t) ==
            if t.node in Init(c).running && t == Task(t.node, None, c.inputs) then 1 else 0
  {
    var entries := BackEdges.EntryNodes(c.graph, c.back);
    EntryNodesDistinct(c.graph, c.back, c.graph.nodes);
    assert Init(c).log == StartEntries(EntryTasks(c, entries));
    EntryStarts(c, entries, t);
  }

  /** At the start only nodes without incoming edges have all their sources completed. */
  lemma InitSources(c: Config, s: State, n: NodeId)
    requires s.completed == {}
    ensures SourcesCompleted(c, s, n) <==> In(c, n) == []
  {
    assert forall e :: e in In(c, n) <==> e in c.graph.edges && e.to == n;
    assert In(c, n) != [] ==> In(c, n)[0] in In(c, n);
  }

  /** What the meaning says about a node without incoming edges. */
  lemma EntryMeaning(c: Config, h: Handler, m: Results, n: NodeId)
    requires Meaning(c, h, m) && n in c.graph.nodes && In(c, n) == []
    ensures n in m && InputFor(c, m, n) == c.inputs
  {
  }

  lemma InitNodes(c: Config, h: Handler, m: Results)
    requires Meaning(c, h, m)
    ensures var s := Init(c);
      && (forall n :: Begun(s, n) <==> n in m && SourcesCompleted(c, s, n))
      && (forall n :: Begun(s, n) ==> TaskFor(c, m, n) == Task(n, None, c.inputs))
  {
    hide Init, Meaning, InputFor, SourcesCompleted;
    InitShape(c);
    MeaningShape(c, h, m);
    var s := Init(c);
    forall n ensures Begun(s, n) <==> n in m && SourcesCompleted(c, s, n)
      ensures Begun(s, n) ==> TaskFor(c, m, n) == Task(n, None, c.inputs)
    {
      InitRunning(c, n);
      InitSources(c, s, n);
      if n in c.graph.nodes && In(c, n) == [] {
        EntryMeaning(c, h, m, n);
      }
    }
  }

  lemma InitSound(c: Config, h: Handler, m: Results)
    requires Meaning(c, h, m)
    ensures FullBooks(c, Init(c)) && Sound(c, m, Init(c))
  {
    hide Books, NodeBooks, Init, StartCount, TaskFor, SourcesCompleted, Meaning, Distinct;
    MeaningShape(c, h, m);
    InitBooks(c);
    InitKeeps(c);
    InitShape(c);
    InitNodes(c, h, m);
    var s := Init(c);
    forall t | t in s.tasks ensures t == TaskFor(c, m, t.node) && t.node in s.running {
      InitTasks(c, t);
      assert Begun(s, t.node);
    }
    forall t ensures StartCount(s.log, t) == if Begun(s, t.node) && t == TaskFor(c, m, t.node) then 1 else 0 {
      InitStarts(c, t);
    }
  }

  lemma EntryHasNoEdges(c: Config, n: NodeId)
    requires c.back == {}
    ensures n in BackEdges.EntryNodes(c.graph, c.back) <==> n in c.graph.nodes && In(c, n) == []
  {
    if In(c, n) != [] {
      assert In(c, n)[0] in In(c, n);
    }
  }

  lemma {:induction false} EntryStarts(c: Config, nodes: seq<NodeId>, t: Task)
    requires Distinct(nodes)
    ensures StartCount(StartEntries(EntryTasks(c, nodes)), t) ==
      if t.node in nodes && t == Task(t.node, None, c.inputs) then 1 else 0
  {
    var log := StartEntries(EntryTasks(c, nodes));
    if nodes != [] {
      var front := nodes[..|nodes| - 1];
      EntryStarts(c, front, t);
      assert log[..|log| - 1] == StartEntries(EntryTasks(c, front));
      assert nodes[|nodes| - 1] !in front;
      assert t.node in nodes <==> t.node in front || t.node == nodes[|nodes| - 1];
    }
  }

  /** Every state of every schedule is sound. */
  lemma {:induction false} RunSound(c: Config, h: Handler, m: Results, picks: seq<nat>)
    requires Meaning(c, h, m)
    ensures FullBooks(c, RunWith(c, h, picks)) && Sound(c, m, RunWith(c, h, picks))
  {
    hide FullBooks, Sound, Meaning, Init, Step, Completes;
    if picks == [] {
      InitSound(c, h, m);
    } else {
      var s, k := RunWith(c, h, picks[..|picks| - 1]), picks[|picks| - 1];
      RunSound(c, h, m, picks[..|picks| - 1]);
      if k < |s.tasks| {
        StepSound(c, h, m, s, k);
      }
    }
  }

  /** Runs with deterministic handlers are runs. */
  lemma {:induction false} RunWithIsRun(c: Config, h: Handler, picks: seq<nat>) returns (choices: seq<Choice>)
    ensures Run(c, choices) == RunWith(c, h, picks)
  {
    hide Step, Init;
    choices := [];
    if picks != [] {
      var front := RunWithIsRun(c, h, picks[..|picks| - 1]);
      var s, k := Run(c, front), picks[|picks| - 1];
      var o := if k < |s.tasks| then Success(h(s.tasks[k].node, s.tasks[k].input)) else Success(Null);
      choices := front + [Choice(k, o)];
      assert choices[..|choices| - 1] == front;
    }
  }
}
