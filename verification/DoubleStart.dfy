/** A run in which failure continuation starts one node twice. */
module DoubleStart {
  import opened Common
  import opened Graph
  import BackEdges
  import opened Scheduler
  import opened SchedulerBooks
  import opened SchedulerRunning

  /** Two entry nodes: one edge from `a` into `target`, two parallel edges from `b`. */
  ghost predicate IsFlow(c: Config, a: NodeId, b: NodeId, target: NodeId, left: Edge, right: Edge, twin: Edge) {
    && a != b && a != target && b != target
    && c.graph == Graph([a, b, target], [left, right, twin])
    && left.from == a && right.from == b && twin.from == b
    && left.to == target && right.to == target && twin.to == target
    && left.id != right.id && left.id != twin.id && right.id != twin.id
    && c.back == {}
  }

  lemma FlowEdges(c: Config, a: NodeId, b: NodeId, target: NodeId, left: Edge, right: Edge, twin: Edge, n: NodeId)
    requires IsFlow(c, a, b, target, left, right, twin)
    ensures Out(c, n) == if n == a then [left] else if n == b then [right, twin] else []
    ensures In(c, n) == if n == target then [left, right, twin] else []
  {
    hide OutEdges, InEdges;
    NoEdges(n);
    EdgesSnoc([], left, n);
    EdgesSnoc([left], right, n);
    EdgesSnoc([left, right], twin, n);
    assert [] + [left] == [left] && [left] + [right] == [left, right] && [left, right] + [twin] == [left, right, twin];
  }

  lemma NoEdges(n: NodeId)
    ensures OutEdges([], n) == [] && InEdges([], n) == []
  {
  }

  lemma FlowStart(c: Config, a: NodeId, b: NodeId, target: NodeId, left: Edge, right: Edge, twin: Edge)
    requires IsFlow(c, a, b, target, left, right, twin)
    ensures var s := Run(c, []);
      && s.tasks == [Task(a, None, c.inputs), Task(b, None, c.inputs)] && s.completed == {} && s.failed == {}
      && s.running == {a, b} && s.fan == map[]
  {
    hide BackEdges.EntryNodes;
    FlowEntries(c, a, b, target, left, right, twin);
    assert EntryTasks(c, [a, b]) == [Task(a, None, c.inputs), Task(b, None, c.inputs)];
  }

  lemma FlowEntries(c: Config, a: NodeId, b: NodeId, target: NodeId, left: Edge, right: Edge, twin: Edge)
    requires IsFlow(c, a, b, target, left, right, twin)
    ensures BackEdges.EntryNodes(c.graph, c.back) == [a, b]
  {
    var g, nodes := c.graph, c.graph.nodes;
    assert left in g.edges && forall e :: e in g.edges ==> e.to == target;
    assert nodes[1..] == [b, target] && [b, target][1..] == [target] && [target][1..] == [];
    assert BackEdges.EntryNodesIn(g, c.back, [target]) == [];
    assert BackEdges.EntryNodesIn(g, c.back, [b, target]) == [b];
  }

  /** A source that finishes while another is still running wakes nothing. */
  lemma WakesNothing(c: Config, s: State, n: NodeId, v: Json, e: Edge, other: Edge)
    requires Out(c, n) == [e] && other in In(c, e.to) && other.id !in c.back
    requires !SourceDone(s, other) && e.to !in s.completed
    ensures var s' := Downstream(c, s, n, v, false); s' == s.(counts := s'.counts)
  {
    hide Passes, EdgeSatisfied, FanOutItems;
    var a := ScanEdges(c, s, v, false, [e]);
    assert [e][..0] == [];
    assert ScanEdges(c, s, v, false, []) == Scan(s.counts, {}, []);
    assert a.ready == [];
  }

  /** After `a` succeeds and `b` fails, `target` is running with two tasks in flight. */
  lemma TargetStartsTwice(c: Config, a: NodeId, b: NodeId, target: NodeId, left: Edge, right: Edge, twin: Edge,
                          v: Json, error: string)
    requires IsFlow(c, a, b, target, left, right, twin)
    ensures var choices := [Choice(0, Success(v)), Choice(0, Outcome.Failed(error))];
      && Tally(Run(c, choices).tasks, (target, None)) == 2 && !NodeBooks(Run(c, choices))
      && Breaks(c, Run(c, choices[..1]), choices[1])
  {
    hide Step, Tally, Init, NodeBooks, Breaks, LeftDone;
    var ok, ko := Choice(0, Success(v)), Choice(0, Outcome.Failed(error));
    assert [ok, ko][..1] == [ok] && [ok][..0] == [];
    AfterSuccess(c, a, b, target, left, right, twin, v);
    var s1 := Run(c, [ok]);
    LeftDoneTask(c, s1, a, b);
    AfterFailure(c, s1, a, b, target, left, right, twin, error);
  }

  lemma LeftDoneTask(c: Config, s: State, a: NodeId, b: NodeId)
    requires LeftDone(c, s, a, b)
    ensures |s.tasks| == 1
  {
  }

  lemma AfterSuccess(c: Config, a: NodeId, b: NodeId, target: NodeId, left: Edge, right: Edge, twin: Edge, v: Json)
    requires IsFlow(c, a, b, target, left, right, twin)
    ensures var s := Run(c, []);
      && |s.tasks| == 2
      && var s1 := Step(c, s, 0, Success(v));
         LeftDone(c, s1, a, b)
  {
    hide Run, Step, Downstream, In, Out;
    FlowStart(c, a, b, target, left, right, twin);
    FlowEdges(c, a, b, target, left, right, twin, a);
    FlowEdges(c, a, b, target, left, right, twin, target);
    var s := Run(c, []);
    StepCases(c, s, 0, Success(v));
    var s2 := SuccessState(Taken(s, 0, Success(v)), a, v);
    WakesNothing(c, s2, a, v, left, right);
  }

  ghost predicate LeftDone(c: Config, s: State, a: NodeId, b: NodeId) {
    s.tasks == [Task(b, None, c.inputs)] && s.completed == {a} && s.failed == {} && s.running == {b} && s.fan == map[]
  }

  function Continued(c: Config, s: State, n: NodeId): State {
    SpawnAllNormal(c, s, ReadyAfterFailure(c, s, Out(c, n)))
  }

  lemma AfterFailure(c: Config, s: State, a: NodeId, b: NodeId, target: NodeId, left: Edge, right: Edge, twin: Edge,
                     error: string)
    requires IsFlow(c, a, b, target, left, right, twin) && LeftDone(c, s, a, b)
    ensures var s' := Step(c, s, 0, Outcome.Failed(error));
      && Tally(s'.tasks, (target, None)) == 2 && !NodeBooks(s') && Breaks(c, s, Choice(0, Outcome.Failed(error)))
  {
    hide Step, Continued, NodeBooks, StartsApart, Tally, IsFlow, Out;
    var o := Outcome.Failed(error);
    FailureStep(c, s, b, o);
    var s2 := FailureState(Taken(s, 0, o), b);
    TargetRunnable(c, s2, a, b, target, left, right, twin);
    TwoStarts(c, s2, a, b, target, left, right, twin);
  }

  lemma FailureStep(c: Config, s: State, b: NodeId, o: Outcome)
    requires s.tasks == [Task(b, None, c.inputs)] && o.Failed?
    ensures Step(c, s, 0, o) == Continued(c, FailureState(Taken(s, 0, o), b), b)
    ensures FailureState(Taken(s, 0, o), b).tasks == []
  {
    hide Step, SpawnAllNormal, ReadyAfterFailure, Downstream, Merged, Fill;
    StepCases(c, s, 0, o);
  }

  lemma TwoStarts(c: Config, s: State, a: NodeId, b: NodeId, target: NodeId, left: Edge, right: Edge, twin: Edge)
    requires IsFlow(c, a, b, target, left, right, twin) && s.tasks == [] && RunnableAfterFailure(c, s, target)
    ensures Tally(Continued(c, s, b).tasks, (target, None)) == 2 && !NodeBooks(Continued(c, s, b))
    ensures !StartsApart(c, s, Out(c, b))
  {
    hide SpawnAllNormal, ReadyAfterFailure, RunnableAfterFailure, Out, Parallel, Tally;
    FlowEdges(c, a, b, target, left, right, twin, b);
    TwoParallel(right, twin, target);
    StartsAfterFailure(c, s, [right, twin], target);
    NoTasks((target, None));
    assert RunningDue(Continued(c, s, b), target) <= 1;
  }

  lemma NoTasks(key: Key)
    ensures Tally([], key) == 0
  {
  }

  lemma TargetRunnable(c: Config, s: State, a: NodeId, b: NodeId, target: NodeId, left: Edge, right: Edge, twin: Edge)
    requires IsFlow(c, a, b, target, left, right, twin)
    requires s.completed == {a} && s.failed == {b} && s.running == {}
    ensures RunnableAfterFailure(c, s, target)
  {
    hide In, Out;
    FlowEdges(c, a, b, target, left, right, twin, target);
    assert left in In(c, target);
    assert forall e :: e in In(c, target) ==> e == left || e == right || e == twin;
  }

  lemma TwoParallel(e: Edge, e': Edge, n: NodeId)
    requires e.to == n && e'.to == n
    ensures Parallel([e, e'], n) == 2
  {
    assert [e, e'][..1] == [e] && [e][..0] == [];
    assert Parallel([e], n) == 1;
  }
}
