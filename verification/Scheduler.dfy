/** The scheduler of execute_run as a state machine: a bag of in-flight tasks,
    any of which may finish next, with any outcome. */
module Scheduler {
  import opened Common
  import opened Graph
  import BackEdges
  import Lexer
  import Expression

  // ---- State ----

  /** A spawned task; `index` is set for one instance of a fan-out. */
  datatype Task = Task(node: NodeId, index: Option<nat>, input: Json)

  datatype FanOut = FanOut(expected: nat, results: seq<Option<Json>>, completed: nat)

  datatype ReadyNode = ReadyNode(node: NodeId, items: Option<seq<Json>>, isCycle: bool)

  /** History of a run: tasks started and finished, fan-ins, and nodes done (completed or failed). */
  datatype Entry =
    | Started(task: Task)
    | Finished(task: Task, outcome: Outcome)
    | FannedIn(node: NodeId, merged: seq<Json>)
    | Done(node: NodeId)

  datatype Config = Config(graph: Graph, inputs: Json, maxTraversals: nat, back: set<EdgeId>)

  datatype State = State(
    completed: set<NodeId>,
    failed: set<NodeId>,
    running: set<NodeId>,
    outputs: map<NodeId, Json>,
    counts: map<EdgeId, nat>,
    fan: map<NodeId, FanOut>,
    tasks: seq<Task>,
    log: seq<Entry>)

  function Out(c: Config, n: NodeId): seq<Edge> { OutEdges(c.graph.edges, n) }
  function In(c: Config, n: NodeId): seq<Edge> { InEdges(c.graph.edges, n) }

  function Count(counts: map<EdgeId, nat>, id: EdgeId): nat { if id in counts then counts[id] else 0 }

  // ---- Data on edges ----

  /** The value an edge carries: the named port when the output has it, else the whole output. */
  function EdgeValue(output: Json, port: string): Json {
    match output.Get(port) case Some(v) => v case None => output
  }

  /** A condition that does not evaluate counts as false. */
  predicate Condition(e: Edge, data: Json) {
    e.condition.None? || Expression.Evaluate(e.condition.value, data) == Lexer.Ok(true)
  }

  function Merge(edges: seq<Edge>, outputs: map<NodeId, Json>): map<string, Json> {
    if edges == [] then map[]
    else
      var e := edges[|edges| - 1];
      var merged := Merge(edges[..|edges| - 1], outputs);
      if e.from in outputs then merged[e.toPort := EdgeValue(outputs[e.from], e.fromPort)] else merged
  }

  lemma SingletonKey<K, V>(m: map<K, V>, a: K, b: K)
    requires |m| == 1 && a in m && b in m
    ensures a == b
  {
    assert |m.Keys - {a}| == 0;
  }

  /** A node's input: the only upstream value, or an object of upstream values by target port. */
  function ResolveInputs(c: Config, outputs: map<NodeId, Json>, n: NodeId): Json {
    var merged := Merge(In(c, n), outputs);
    if |merged| == 1 then
      assert forall a, b :: a in merged && b in merged ==> a == b by {
        forall a, b | a in merged && b in merged ensures a == b { SingletonKey(merged, a, b); }
      }
      assert merged.Keys != {};
      var k :| k in merged;
      merged[k]
    else Object(merged)
  }

  // ---- Readiness ----

  predicate SourceDone(s: State, e: Edge) { e.from in s.completed || e.from in s.failed }

  predicate EdgeSatisfied(c: Config, s: State, counts: map<EdgeId, nat>, e: Edge) {
    && e.from in s.completed
    && e.from in s.outputs
    && Condition(e, s.outputs[e.from])
    && Count(counts, e.id) <= c.maxTraversals
  }

  /** All forward sources done and at least one forward edge satisfied. */
  predicate IsNodeReady(c: Config, s: State, counts: map<EdgeId, nat>, n: NodeId) {
    || In(c, n) == []
    || (&& (forall e :: e in In(c, n) && e.id !in c.back ==> SourceDone(s, e))
        && (exists e :: e in In(c, n) && e.id !in c.back && EdgeSatisfied(c, s, counts, e)))
  }

  predicate FanOutRunning(s: State, n: NodeId) { n in s.fan && s.fan[n].completed < s.fan[n].expected }

  // ---- Evaluating the edges of a node that is done ----

  datatype Scan = Scan(counts: map<EdgeId, nat>, seen: set<NodeId>, ready: seq<ReadyNode>)

  function FanOutItems(output: Json, e: Edge, fromFanIn: bool): Option<seq<Json>> {
    var v := EdgeValue(output, e.fromPort);
    if !fromFanIn && v.Array? && v.items != [] then Some(v.items) else None
  }

  predicate Passes(c: Config, counts: map<EdgeId, nat>, output: Json, e: Edge) {
    Condition(e, output) && Count(counts, e.id) < c.maxTraversals
  }

  /** Whether a target that an edge has just reached is started, given what is under way. */
  predicate Eligible(c: Config, s: State, counts: map<EdgeId, nat>, n: NodeId) {
    && !FanOutRunning(s, n)
    && n !in s.running
    && (n in s.completed || (n !in s.failed && IsNodeReady(c, s, counts, n)))
  }

  function ScanEdge(c: Config, s: State, output: Json, fromFanIn: bool, a: Scan, e: Edge): Scan {
    var passed := Passes(c, a.counts, output, e);
    var counts := a.counts[e.id := Count(a.counts, e.id) + if passed then 1 else 0];
    if !passed || e.to in a.seen then a.(counts := counts)
    else
      Scan(counts, a.seen + {e.to},
           if Eligible(c, s, counts, e.to)
           then a.ready + [ReadyNode(e.to, FanOutItems(output, e, fromFanIn), e.to in s.completed)]
           else a.ready)
  }

  function ScanEdges(c: Config, s: State, output: Json, fromFanIn: bool, edges: seq<Edge>): Scan {
    if edges == [] then Scan(s.counts, {}, [])
    else ScanEdge(c, s, output, fromFanIn, ScanEdges(c, s, output, fromFanIn, edges[..|edges| - 1]), edges[|edges| - 1])
  }

  // ---- Spawning ----

  function FanOutTasks(n: NodeId, items: seq<Json>): (r: seq<Task>)
    ensures |r| == |items| && forall i :: 0 <= i < |items| ==> r[i] == Task(n, Some(i), items[i])
  {
    seq(|items|, i requires 0 <= i < |items| => Task(n, Some(i), items[i]))
  }

  function StartEntries(tasks: seq<Task>): (r: seq<Entry>)
    ensures |r| == |tasks| && forall i :: 0 <= i < |tasks| ==> r[i] == Started(tasks[i])
  {
    seq(|tasks|, i requires 0 <= i < |tasks| => Started(tasks[i]))
  }

  function AddTasks(s: State, tasks: seq<Task>): State {
    s.(tasks := s.tasks + tasks, log := s.log + StartEntries(tasks))
  }

  function SpawnNormal(c: Config, s: State, n: NodeId): State {
    AddTasks(s.(running := s.running + {n}), [Task(n, None, ResolveInputs(c, s.outputs, n))])
  }

  function NewFanOut(count: nat): FanOut {
    FanOut(count, seq(count, _ => None), 0)
  }

  function Spawn(c: Config, s: State, r: ReadyNode): State {
    var s1 := if r.isCycle then s.(completed := s.completed - {r.node}) else s;
    match r.items
    case Some(items) =>
      AddTasks(s1.(fan := s1.fan[r.node := NewFanOut(|items|)]), FanOutTasks(r.node, items))
    case None => SpawnNormal(c, s1, r.node)
  }

  function SpawnAll(c: Config, s: State, ready: seq<ReadyNode>): State {
    if ready == [] then s
    else Spawn(c, SpawnAll(c, s, ready[..|ready| - 1]), ready[|ready| - 1])
  }

  function SpawnAllNormal(c: Config, s: State, nodes: seq<NodeId>): State {
    if nodes == [] then s
    else SpawnNormal(c, SpawnAllNormal(c, s, nodes[..|nodes| - 1]), nodes[|nodes| - 1])
  }

  // ---- One iteration of the loop ----

  /** A node is done with this output: evaluate its edges and start what became ready. */
  function Downstream(c: Config, s: State, n: NodeId, output: Json, fromFanIn: bool): State {
    var a := ScanEdges(c, s, output, fromFanIn, Out(c, n));
    SpawnAll(c, s.(counts := a.counts), a.ready)
  }

  predicate RunnableAfterFailure(c: Config, s: State, n: NodeId) {
    && n !in s.completed && n !in s.failed && n !in s.running
    && (forall e :: e in In(c, n) ==> SourceDone(s, e))
    && (exists e :: e in In(c, n) && e.from in s.completed)
  }

  function ReadyAfterFailure(c: Config, s: State, edges: seq<Edge>): seq<NodeId> {
    if edges == [] then []
    else
      var rest := ReadyAfterFailure(c, s, edges[..|edges| - 1]);
      var n := edges[|edges| - 1].to;
      if RunnableAfterFailure(c, s, n) then rest + [n] else rest
  }

  /** What a fan-out instance leaves in its slot: its value, or a marker object for its failure. */
  function Slot(o: Outcome, index: nat): Json {
    match o
    case Success(v) => v
    case Failed(e) => Object(map["error" := String(e), "fan_out_index" := Number(index as real)])
  }

  function Merged(results: seq<Option<Json>>): (r: seq<Json>)
    ensures |r| == |results|
    ensures forall i :: 0 <= i < |results| ==> r[i] == if results[i].Some? then results[i].value else Null
  {
    seq(|results|, i requires 0 <= i < |results| => if results[i].Some? then results[i].value else Null)
  }

  function Fill(f: FanOut, index: nat, o: Outcome): FanOut {
    if index < |f.results|
    then f.(results := f.results[index := Some(Slot(o, index))], completed := f.completed + 1)
    else f
  }

  function FinishInstance(c: Config, s: State, t: Task, index: nat, o: Outcome): State {
    if t.node !in s.fan then s
    else
      var f := Fill(s.fan[t.node], index, o);
      if f.completed == f.expected then
        var merged := Merged(f.results);
        var s1 := s.(completed := s.completed + {t.node},
                     outputs := s.outputs[t.node := Array(merged)],
                     fan := s.fan - {t.node},
                     log := s.log + [FannedIn(t.node, merged), Done(t.node)]);
        Downstream(c, s1, t.node, Array(merged), true)
      else s.(fan := s.fan[t.node := f])
  }

  function FinishNormal(c: Config, s: State, n: NodeId, o: Outcome): State {
    var s1 := s.(running := s.running - {n}, log := s.log + [Done(n)]);
    match o
    case Success(v) =>
      Downstream(c, s1.(completed := s1.completed + {n}, outputs := s1.outputs[n := v]), n, v, false)
    case Failed(_) =>
      var s2 := s1.(failed := s1.failed + {n});
      SpawnAllNormal(c, s2, ReadyAfterFailure(c, s2, Out(c, n)))
  }

  /** Task `k` finishes with outcome `o`. */
  function Step(c: Config, s: State, k: nat, o: Outcome): State
    requires k < |s.tasks|
  {
    var t := s.tasks[k];
    var s1 := s.(tasks := s.tasks[..k] + s.tasks[k + 1..], log := s.log + [Finished(t, o)]);
    match t.index
    case Some(i) => FinishInstance(c, s1, t, i, o)
    case None => FinishNormal(c, s1, t.node, o)
  }

  // ---- Runs ----

  function EntryTasks(c: Config, nodes: seq<NodeId>): (r: seq<Task>)
    ensures |r| == |nodes| && forall i :: 0 <= i < |nodes| ==> r[i] == Task(nodes[i], None, c.inputs)
  {
    seq(|nodes|, i requires 0 <= i < |nodes| => Task(nodes[i], None, c.inputs))
  }

  /** Entry nodes are seeded with, and started on, the trigger inputs. */
  function Init(c: Config): State {
    var entries := BackEdges.EntryNodes(c.graph, c.back);
    AddTasks(
      State({}, {}, Elements(entries), map n | n in entries :: c.inputs, map[], map[], [], []),
      EntryTasks(c, entries))
  }

  /** Which task finishes next, and how. */
  datatype Choice = Choice(k: nat, outcome: Outcome)

  /** A run: every sequence of choices is one (a choice of no task changes nothing). */
  function Run(c: Config, choices: seq<Choice>): State {
    if choices == [] then Init(c)
    else
      var s := Run(c, choices[..|choices| - 1]);
      var ch := choices[|choices| - 1];
      if ch.k < |s.tasks| then Step(c, s, ch.k, ch.outcome) else s
  }

  // ---- Final status ----

  predicate AllDone(c: Config, s: State) {
    forall n :: n in c.graph.nodes ==> n in s.completed || n in s.failed
  }

  function FinalStatus(c: Config, s: State, cancelled: bool): RunStatus {
    if cancelled then Cancelled
    else if |s.completed| + |s.failed| < |Elements(c.graph.nodes)| && s.running == {} && !AllDone(c, s)
    then RunStatus.Failed
    else if s.failed == {} then Completed
    else RunStatus.Failed
  }
}
