/** Exactly when the completion order does not matter: all schedules of an acyclic flow agree if
    and only if, at every join, the sources that can finish last agree on whether to start it. */
module ScheduleIndependence {
  import opened Common
  import opened Graph
  import BackEdges
  import opened Scheduler
  import opened SchedulerBooks
  import opened SchedulerRunning
  import opened ScheduleSoundness

  ghost predicate Assumptions(c: Config, h: Handler, order: seq<NodeId>) {
    && ValidGraph(c.graph) && TopologicalOrder(c.graph, order) && c.back == {} && c.maxTraversals >= 1
    && NoFanOut(c, Sequential(c, h, order))
  }

  lemma SequentialIsMeaning(c: Config, h: Handler, order: seq<NodeId>)
    requires Assumptions(c, h, order)
    ensures Meaning(c, h, Sequential(c, h, order))
  {
    hide Sequential, Activated, InputFor, NoFanOut;
    SequentialKeys(c, h, order);
    SequentialSolves(c, h, order, |order|);
    assert order[..|order|] == order;
    forall n | n in c.graph.nodes ensures Solves(c, h, Sequential(c, h, order), n) {
      var j :| 0 <= j < |order| && order[j] == n;
    }
  }

  // ---- Sources that can finish last ----

  /** A source of `n` from which no other source of `n` can be reached. */
  ghost predicate CanBeLast(c: Config, y: NodeId, n: NodeId) {
    HasEdge(c, y, n) && forall z :: HasEdge(c, z, n) && z != y ==> !Reach(c.graph, y, z)
  }

  ghost predicate SourcesIn(c: Config, k: set<NodeId>, n: NodeId) {
    forall y :: HasEdge(c, y, n) ==> y in k
  }

  /** All sources of `n` are settled to run, and whichever finishes last starts `n`. */
  ghost predicate Starts(c: Config, m: Results, k: set<NodeId>, n: NodeId) {
    n in m && SourcesIn(c, k, n) && forall y :: CanBeLast(c, y, n) ==> Holding(c, m, y, n)
  }

  /** The nodes that run whatever the schedule, along a topological order. */
  ghost function Settled(c: Config, m: Results, order: seq<NodeId>): set<NodeId> {
    if order == [] then {}
    else
      var k, n := Settled(c, m, order[..|order| - 1]), order[|order| - 1];
      if Starts(c, m, k, n) then k + {n} else k
  }

  /** The sources of `n` that can finish last agree on whether to start it. */
  ghost predicate UnanimousAt(c: Config, m: Results, k: set<NodeId>, n: NodeId) {
    SourcesIn(c, k, n) ==>
      forall y, y' :: CanBeLast(c, y, n) && CanBeLast(c, y', n) && Holding(c, m, y, n) ==> Holding(c, m, y', n)
  }

  ghost predicate Unanimous(c: Config, m: Results, k: set<NodeId>) {
    forall n :: n in c.graph.nodes ==> UnanimousAt(c, m, k, n)
  }

  /** The equations that `Settled` solves. */
  ghost predicate Settles(c: Config, m: Results, k: set<NodeId>) {
    && (forall n :: n in k ==> n in m)
    && forall n :: n in c.graph.nodes ==> (n in k <==> Starts(c, m, k, n))
  }

  lemma {:induction false} SettledKeys(c: Config, m: Results, order: seq<NodeId>)
    ensures forall n :: n in Settled(c, m, order) ==> n in m && n in order
  {
    if order != [] {
      SettledKeys(c, m, order[..|order| - 1]);
    }
  }

  lemma {:induction false} SettledStarts(c: Config, m: Results, order: seq<NodeId>, i: nat)
    requires TopologicalOrder(c.graph, order) && i <= |order|
    ensures forall j :: 0 <= j < i ==>
      (order[j] in Settled(c, m, order[..i]) <==> Starts(c, m, Settled(c, m, order[..i]), order[j]))
  {
    hide CanBeLast, Holding;
    if i > 0 {
      var k, k' := Settled(c, m, order[..i - 1]), Settled(c, m, order[..i]);
      assert order[..i][..i - 1] == order[..i - 1];
      SettledStarts(c, m, order, i - 1);
      SettledKeys(c, m, order[..i - 1]);
      assert order[i - 1] !in order[..i - 1];
      forall j | 0 <= j < i ensures order[j] in k' <==> Starts(c, m, k', order[j]) {
        assert SourcesIn(c, k, order[j]) <==> SourcesIn(c, k', order[j]) by {
          SameSources(c, order, i, j, k, k');
        }
        assert j < i - 1 ==> (order[j] in k <==> Starts(c, m, k, order[j]));
      }
    }
  }

  lemma SameSources(c: Config, order: seq<NodeId>, i: nat, j: nat, k: set<NodeId>, k': set<NodeId>)
    requires TopologicalOrder(c.graph, order) && j < i <= |order|
    requires k <= k' <= k + {order[i - 1]}
    ensures SourcesIn(c, k, order[j]) <==> SourcesIn(c, k', order[j])
  {
    forall y | HasEdge(c, y, order[j]) ensures y in k <==> y in k' {
      assert y in order[..j];
    }
  }

  lemma SettledSettles(c: Config, m: Results, order: seq<NodeId>)
    requires TopologicalOrder(c.graph, order)
    ensures Settles(c, m, Settled(c, m, order))
  {
    hide Settled, Starts;
    SettledKeys(c, m, order);
    SettledStarts(c, m, order, |order|);
    assert order[..|order|] == order;
    forall n | n in c.graph.nodes ensures n in Settled(c, m, order) <==> Starts(c, m, Settled(c, m, order), n) {
      var j :| 0 <= j < |order| && order[j] == n;
    }
  }

  // ---- The last source to finish can be last ----

  /** Whatever leads to a node that has begun has completed. */
  lemma {:induction false} BegunAncestors(c: Config, m: Results, s: State, x: NodeId, p: seq<Edge>, y: NodeId)
    requires SoundNodes(c, m, s) && Begun(s, y) && p != [] && Walk(c.graph, x, p, y)
    ensures x in s.completed
    decreases p
  {
    if p[1..] != [] {
      BegunAncestors(c, m, s, p[0].to, p[1..], y);
      assert Begun(s, p[0].to);
    }
    assert SourcesCompleted(c, s, p[0].to);
  }

  lemma LastCanBeLast(c: Config, m: Results, s: State, n: NodeId, s': State, x: NodeId)
    requires SoundNodes(c, m, s) && Completes(c, m, s, n, s') && HasEdge(c, n, x) && SourcesCompleted(c, s', x)
    ensures CanBeLast(c, n, x)
  {
    forall z | HasEdge(c, z, x) && z != n ensures !Reach(c.graph, n, z) {
      assert z in s.completed && Begun(s, z);
      if Reach(c.graph, n, z) {
        var p :| Walk(c.graph, n, p, z);
        BegunAncestors(c, m, s, n, p, z);
      }
    }
  }

  // ---- On a part of the flow that is unanimous, every schedule does what is settled ----

  ghost predicate ClosedUp(c: Config, u: set<NodeId>) {
    && (forall e :: e in c.graph.edges && e.to in u ==> e.from in u)
    && forall n :: n in u ==> n in c.graph.nodes
  }

  /** Nothing else of `u` begins, and nothing settled of `u` whose sources have completed is overlooked. */
  ghost predicate Tracks(c: Config, k: set<NodeId>, u: set<NodeId>, s: State) {
    && (forall x :: x in u && Begun(s, x) ==> x in k)
    && (forall x :: x in u && x in k && SourcesCompleted(c, s, x) ==> Begun(s, x))
  }

  lemma StartedIsSettled(c: Config, m: Results, k: set<NodeId>, u: set<NodeId>, s: State, n: NodeId, s': State,
                         x: NodeId)
    requires Settles(c, m, k) && ClosedUp(c, u) && UnanimousAt(c, m, k, x)
    requires SoundNodes(c, m, s) && Tracks(c, k, u, s) && Completes(c, m, s, n, s')
    requires x in u && Due(c, m, s', n, x)
    ensures x in k
  {
    hide Tracks, Holding, CanBeLast, Settles;
    assert HasEdge(c, n, x) by { HoldingHasEdge(c, m, n, x); }
    LastCanBeLast(c, m, s, n, s', x);
    forall y | HasEdge(c, y, x) ensures y in k {
      assert y in s'.completed && y in u;
      assert Begun(s, y);
      TracksUpper(c, k, u, s, y);
    }
    SettlesAt(c, m, k, x);
  }

  lemma TracksUpper(c: Config, k: set<NodeId>, u: set<NodeId>, s: State, y: NodeId)
    requires Tracks(c, k, u, s) && y in u && Begun(s, y)
    ensures y in k
  {
  }

  lemma SettlesAt(c: Config, m: Results, k: set<NodeId>, n: NodeId)
    requires Settles(c, m, k) && n in c.graph.nodes
    ensures n in k <==> Starts(c, m, k, n)
  {
  }

  lemma HoldingHasEdge(c: Config, m: Results, n: NodeId, x: NodeId)
    requires Holding(c, m, n, x)
    ensures HasEdge(c, n, x)
  {
  }

  lemma SettledIsStarted(c: Config, m: Results, k: set<NodeId>, u: set<NodeId>, s: State, n: NodeId, s': State,
                         x: NodeId)
    requires Settles(c, m, k) && ClosedUp(c, u)
    requires SoundNodes(c, m, s) && Tracks(c, k, u, s) && Completes(c, m, s, n, s')
    requires x in u && x in k && SourcesCompleted(c, s', x)
    ensures Begun(s', x)
  {
    hide Holding, CanBeLast, Settles;
    if HasEdge(c, n, x) {
      LastCanBeLast(c, m, s, n, s', x);
      SettlesAt(c, m, k, x);
      assert Due(c, m, s', n, x);
    } else {
      assert SourcesCompleted(c, s, x);
    }
  }

  lemma StepTracks(c: Config, m: Results, k: set<NodeId>, u: set<NodeId>, s: State, n: NodeId, s': State)
    requires Settles(c, m, k) && ClosedUp(c, u) && forall x :: x in u ==> UnanimousAt(c, m, k, x)
    requires SoundNodes(c, m, s) && Tracks(c, k, u, s) && Completes(c, m, s, n, s')
    ensures Tracks(c, k, u, s')
  {
    hide SoundNodes, Settles, ClosedUp, UnanimousAt, Due;
    forall x | x in u && Begun(s', x) ensures x in k {
      if !Begun(s, x) {
        StartedIsSettled(c, m, k, u, s, n, s', x);
      }
    }
    forall x | x in u && x in k && SourcesCompleted(c, s', x) ensures Begun(s', x) {
      SettledIsStarted(c, m, k, u, s, n, s', x);
    }
  }

  lemma InitTracks(c: Config, h: Handler, m: Results, k: set<NodeId>, u: set<NodeId>)
    requires Meaning(c, h, m) && Settles(c, m, k) && ClosedUp(c, u)
    ensures Tracks(c, k, u, Init(c))
  {
    hide Meaning, Init, Holding;
    InitNodes(c, h, m);
    InitShape(c);
    var s := Init(c);
    forall x | x in u && Begun(s, x) ensures x in k {
      assert SourcesCompleted(c, s, x);
      assert forall y :: !HasEdge(c, y, x);
    }
  }

  lemma {:induction false} RunTracks(c: Config, h: Handler, m: Results, k: set<NodeId>, u: set<NodeId>, picks: seq<nat>)
    requires Meaning(c, h, m) && Settles(c, m, k) && ClosedUp(c, u) && forall x :: x in u ==> UnanimousAt(c, m, k, x)
    ensures Tracks(c, k, u, RunWith(c, h, picks))
  {
    hide Meaning, Settles, ClosedUp, UnanimousAt, Tracks, Init, Step, FullBooks, Completes;
    if picks == [] {
      InitTracks(c, h, m, k, u);
    } else {
      var front, i := picks[..|picks| - 1], picks[|picks| - 1];
      RunTracks(c, h, m, k, u, front);
      var s := RunWith(c, h, front);
      RunSound(c, h, m, front);
      if i < |s.tasks| {
        StepSound(c, h, m, s, i);
        StepTracks(c, m, k, u, s, s.tasks[i].node, StepWith(c, h, s, i));
      }
    }
  }

  // ---- At the end ----

  lemma NothingRuns(c: Config, s: State)
    requires Books(c, s) && s.tasks == []
    ensures s.running == {}
  {
  }

  lemma SourceEarlier(g: Graph, order: seq<NodeId>, i: nat, e: Edge) returns (j: nat)
    requires TopologicalOrder(g, order) && i < |order| && e in g.edges && e.to == order[i]
    ensures j < i && order[j] == e.from
  {
    j :| 0 <= j < i && order[j] == e.from;
  }

  /** Whatever does not wait for a node that is held back has completed once nothing else is in flight. */
  lemma {:induction false} SettledCompletes(c: Config, m: Results, k: set<NodeId>, u: set<NodeId>, s: State,
                                            order: seq<NodeId>, i: nat, held: set<NodeId>)
    requires TopologicalOrder(c.graph, order) && Settles(c, m, k) && ClosedUp(c, u) && Tracks(c, k, u, s)
    requires i < |order| && order[i] in u && order[i] in k
    requires s.running <= held && forall y :: y in held ==> !Reach(c.graph, y, order[i])
    ensures order[i] in s.completed
    decreases i
  {
    hide TopologicalOrder, Tracks, Settles, Reach;
    assert order[i] in c.graph.nodes;
    SettlesAt(c, m, k, order[i]);
    forall e | e in c.graph.edges && e.to == order[i] ensures e.from in s.completed {
      var j := SourceEarlier(c.graph, order, i, e);
      assert HasEdge(c, e.from, order[i]);
      forall y | y in held ensures !Reach(c.graph, y, e.from) {
        if Reach(c.graph, y, e.from) {
          ReachStep(c.graph, y, e);
        }
      }
      SettledCompletes(c, m, k, u, s, order, j, held);
    }
    TracksLower(c, k, u, s, order[i]);
    if order[i] in s.running {
      ReachSelf(c.graph, order[i]);
    }
  }

  lemma TracksLower(c: Config, k: set<NodeId>, u: set<NodeId>, s: State, x: NodeId)
    requires Tracks(c, k, u, s) && x in u && x in k && SourcesCompleted(c, s, x)
    ensures Begun(s, x)
  {
  }

  /** With nothing in flight, exactly the settled part of `u` has completed. */
  lemma EndsSettled(c: Config, h: Handler, m: Results, order: seq<NodeId>, k: set<NodeId>, u: set<NodeId>,
                    picks: seq<nat>, n: NodeId)
    requires Meaning(c, h, m) && TopologicalOrder(c.graph, order) && Settles(c, m, k) && ClosedUp(c, u)
    requires forall x :: x in u ==> UnanimousAt(c, m, k, x)
    requires RunWith(c, h, picks).tasks == [] && n in u
    ensures n in RunWith(c, h, picks).completed <==> n in k
  {
    hide Meaning, Settles, ClosedUp, UnanimousAt, RunWith, Sound, Books, NodeBooks, Reach;
    var s := RunWith(c, h, picks);
    RunSound(c, h, m, picks);
    RunTracks(c, h, m, k, u, picks);
    NothingRuns(c, s);
    if n in k {
      var i := PositionIn(c, u, order, n);
      SettledCompletes(c, m, k, u, s, order, i, {});
    }
    if n in s.completed {
      TracksUpper(c, k, u, s, n);
    }
  }

  lemma PositionIn(c: Config, u: set<NodeId>, order: seq<NodeId>, n: NodeId) returns (i: nat)
    requires TopologicalOrder(c.graph, order) && ClosedUp(c, u) && n in u
    ensures i < |order| && order[i] == n
  {
    i :| 0 <= i < |order| && order[i] == n;
  }

  // ---- Schedules made to measure ----

  lemma RunningHasTaskAt(c: Config, s: State, x: NodeId) returns (i: nat)
    requires Books(c, s) && x in s.running
    ensures i < |s.tasks| && s.tasks[i].node == x
  {
    TallyWitness(s.tasks, (x, None));
    i :| 0 <= i < |s.tasks| && KeyOf(s.tasks[i]) == (x, None);
  }

  lemma PickExtends(c: Config, h: Handler, picks: seq<nat>, i: nat)
    ensures RunWith(c, h, picks + [i]) == StepWith(c, h, RunWith(c, h, picks), i)
  {
    assert (picks + [i])[..|picks|] == picks;
  }

  /** One more step, and the progress it makes. */
  lemma PickNext(c: Config, h: Handler, m: Results, picks: seq<nat>, i: nat)
    requires Meaning(c, h, m) && i < |RunWith(c, h, picks).tasks|
    ensures var s, s' := RunWith(c, h, picks), RunWith(c, h, picks + [i]);
      Completes(c, m, s, s.tasks[i].node, s') && m.Keys - s'.completed < m.Keys - s.completed
  {
    hide Meaning, FullBooks, Step;
    RunSound(c, h, m, picks);
    var s, s' := RunWith(c, h, picks), RunWith(c, h, picks + [i]);
    StepSound(c, h, m, s, i);
    PickExtends(c, h, picks, i);
    hide RunWith, StepWith, Completes, SoundTasks, SoundOutputs, SoundCounts, SoundStarts;
    FirstCompletion(c, m, s, s.tasks[i].node, s');
  }

  lemma FirstCompletion(c: Config, m: Results, s: State, n: NodeId, s': State)
    requires Completes(c, m, s, n, s') && SoundNodes(c, m, s)
    ensures m.Keys - s'.completed < m.Keys - s.completed
  {
    assert Begun(s, n);
    assert n in (m.Keys - s.completed) - (m.Keys - s'.completed);
  }

  /** Hold `y` back until nothing else is in flight. */
  lemma {:induction false} HoldBack(c: Config, h: Handler, m: Results, picks: seq<nat>, y: NodeId)
    returns (more: seq<nat>)
    requires Meaning(c, h, m) && y !in RunWith(c, h, picks).completed
    ensures var s := RunWith(c, h, more); y !in s.completed && s.running <= {y}
    decreases m.Keys - RunWith(c, h, picks).completed
  {
    hide Meaning, RunWith, FullBooks, Sound;
    var s := RunWith(c, h, picks);
    if s.running <= {y} {
      more := picks;
    } else {
      var x :| x in s.running && x != y;
      RunSound(c, h, m, picks);
      assert Books(c, s) by { BooksOf(c, s); }
      var i := RunningHasTaskAt(c, s, x);
      PickNext(c, h, m, picks, i);
      more := HoldBack(c, h, m, picks + [i], y);
    }
  }

  lemma BooksOf(c: Config, s: State)
    requires FullBooks(c, s)
    ensures Books(c, s) && NodeBooks(s)
  {
  }

  /** Run to the end; what has begun completes. */
  lemma {:induction false} RunOut(c: Config, h: Handler, m: Results, picks: seq<nat>) returns (more: seq<nat>)
    requires Meaning(c, h, m)
    ensures RunWith(c, h, more).tasks == []
    ensures forall x :: Begun(RunWith(c, h, picks), x) ==> x in RunWith(c, h, more).completed
    decreases m.Keys - RunWith(c, h, picks).completed
  {
    hide Meaning, RunWith, FullBooks, Sound, Due;
    var s := RunWith(c, h, picks);
    if s.tasks == [] {
      more := picks;
      RunSound(c, h, m, picks);
      assert Books(c, s) by { BooksOf(c, s); }
      NothingRuns(c, s);
    } else {
      PickNext(c, h, m, picks, 0);
      more := RunOut(c, h, m, picks + [0]);
    }
  }

  // ---- A last source that does not hold strands its target ----

  /** `n` can no longer begin: all its sources have completed, or one of them was neither done by
      the time only `y` was left nor waits for `y`. */
  ghost predicate Stranded(c: Config, s: State, y: NodeId, n: NodeId, done: set<NodeId>) {
    || (SourcesCompleted(c, s, n) && !Begun(s, n))
    || (&& done <= s.completed
        && (forall x :: Begun(s, x) ==> x in done || Reach(c.graph, y, x))
        && exists z :: HasEdge(c, z, n) && z !in done && !Reach(c.graph, y, z))
  }

  lemma StrandedStep(c: Config, m: Results, s: State, w: NodeId, s': State, y: NodeId, n: NodeId, done: set<NodeId>)
    requires Completes(c, m, s, w, s') && Stranded(c, s, y, n, done)
    ensures Stranded(c, s', y, n, done)
  {
    hide Reach, Holding;
    if SourcesCompleted(c, s, n) && !Begun(s, n) {
      assert SourcesCompleted(c, s', n);
      if Due(c, m, s', w, n) {
        HoldingHasEdge(c, m, w, n);
      }
    } else {
      forall x | Begun(s', x) ensures x in done || Reach(c.graph, y, x) {
        if !Begun(s, x) {
          HoldingHasEdge(c, m, w, x);
          var e :| e in c.graph.edges && e.from == w && e.to == x;
          assert Begun(s, w) && w !in done;
          ReachStep(c.graph, y, e);
        }
      }
    }
  }

  lemma StrandedIncomplete(c: Config, m: Results, s: State, y: NodeId, n: NodeId, done: set<NodeId>)
    requires SoundNodes(c, m, s) && Stranded(c, s, y, n, done)
    ensures n !in s.completed
  {
    hide Reach;
    assert n in s.completed ==> Begun(s, n) && SourcesCompleted(c, s, n);
    forall z | HasEdge(c, z, n) && z !in done && !Reach(c.graph, y, z) && !Begun(s, z)
      ensures !SourcesCompleted(c, s, n)
    {
    }
  }

  lemma {:induction false} RunOutStranded(c: Config, h: Handler, m: Results, picks: seq<nat>, y: NodeId, n: NodeId,
                                          done: set<NodeId>)
    returns (more: seq<nat>)
    requires Meaning(c, h, m) && Stranded(c, RunWith(c, h, picks), y, n, done)
    ensures RunWith(c, h, more).tasks == [] && n !in RunWith(c, h, more).completed
    decreases m.Keys - RunWith(c, h, picks).completed
  {
    hide Meaning, RunWith, FullBooks, Stranded, Completes;
    var s := RunWith(c, h, picks);
    if s.tasks == [] {
      more := picks;
      RunSound(c, h, m, picks);
      StrandedIncomplete(c, m, s, y, n, done);
    } else {
      PickNext(c, h, m, picks, 0);
      StrandedStep(c, m, s, s.tasks[0].node, RunWith(c, h, picks + [0]), y, n, done);
      more := RunOutStranded(c, h, m, picks + [0], y, n, done);
    }
  }

  /** If a source that can finish last does not hold, some schedule never completes the target. */
  lemma StrandingSchedule(c: Config, h: Handler, m: Results, y: NodeId, n: NodeId) returns (picks: seq<nat>)
    requires Meaning(c, h, m) && CanBeLast(c, y, n) && !Holding(c, m, y, n)
    ensures RunWith(c, h, picks).tasks == [] && n !in RunWith(c, h, picks).completed
  {
    hide Meaning, RunWith, FullBooks, Holding, SoundTasks, SoundOutputs, SoundCounts, SoundStarts;
    NothingCompleted(c, h);
    picks := HoldBack(c, h, m, [], y);
    var s := RunWith(c, h, picks);
    RunSound(c, h, m, picks);
    assert Books(c, s) by { BooksOf(c, s); }
    if z :| HasEdge(c, z, n) && z != y && z !in s.completed {
      assert Stranded(c, s, y, n, s.completed) by { HeldStrands(c, m, s, y, n, z); }
      picks := RunOutStranded(c, h, m, picks, y, n, s.completed);
    } else if y in s.running {
      var i := RunningHasTaskAt(c, s, y);
      PickNext(c, h, m, picks, i);
      var s' := RunWith(c, h, picks + [i]);
      assert Stranded(c, s', y, n, {}) by { LastStrands(c, m, s, y, n, s'); }
      picks := RunOutStranded(c, h, m, picks + [i], y, n, {});
    } else {
      BooksOf(c, s);
      NothingInFlight(c, s);
      assert n in s.completed ==> Begun(s, n) && SourcesCompleted(c, s, n);
    }
  }

  lemma NothingCompleted(c: Config, h: Handler)
    ensures RunWith(c, h, []).completed == {}
  {
    InitShape(c);
  }

  lemma HeldStrands(c: Config, m: Results, s: State, y: NodeId, n: NodeId, z: NodeId)
    requires s.running <= {y} && CanBeLast(c, y, n) && HasEdge(c, z, n) && z != y && z !in s.completed
    ensures Stranded(c, s, y, n, s.completed)
  {
    ReachSelf(c.graph, y);
    hide Reach;
  }

  lemma LastStrands(c: Config, m: Results, s: State, y: NodeId, n: NodeId, s': State)
    requires SoundNodes(c, m, s) && Completes(c, m, s, y, s') && CanBeLast(c, y, n) && !Holding(c, m, y, n)
    requires forall z :: HasEdge(c, z, n) && z != y ==> z in s.completed
    ensures Stranded(c, s', y, n, {})
  {
    hide Reach, Holding;
    assert !Begun(s, n) by {
      assert Begun(s, n) ==> SourcesCompleted(c, s, n);
    }
    forall e | e in c.graph.edges && e.to == n ensures e.from in s'.completed {
      assert HasEdge(c, e.from, n);
    }
  }

  // ---- A last source that holds wakes its target ----

  lemma {:induction false} WalkGoesForward(g: Graph, order: seq<NodeId>, i: nat, p: seq<Edge>, b: NodeId)
    returns (j: nat)
    requires TopologicalOrder(g, order) && EndpointsExist(g)
    requires i < |order| && p != [] && Walk(g, order[i], p, b)
    ensures i < j < |order| && order[j] == b
    decreases p
  {
    j :| 0 <= j < |order| && order[j] == p[0].to;
    assert order[i] in order[..j];
    if p[1..] != [] {
      j := WalkGoesForward(g, order, j, p[1..], b);
    }
  }

  lemma NoWayBack(g: Graph, order: seq<NodeId>, e: Edge)
    requires TopologicalOrder(g, order) && EndpointsExist(g) && e in g.edges
    ensures !Reach(g, e.to, e.from)
  {
    forall p | Walk(g, e.to, p, e.from) ensures false {
      var i :| 0 <= i < |order| && order[i] == e.from;
      WalkPrepend(g, e, p, e.from);
      var j := WalkGoesForward(g, order, i, [e] + p, e.from);
    }
  }

  /** The part of the flow that `n` waits for, up to unanimity. */
  ghost predicate Unanimity(c: Config, m: Results, k: set<NodeId>, u: set<NodeId>) {
    Settles(c, m, k) && ClosedUp(c, u) && forall x :: x in u ==> UnanimousAt(c, m, k, x)
  }

  /** With only `y` held back, the other sources of `n` have completed and `y` is in flight. */
  lemma HeldReady(c: Config, m: Results, order: seq<NodeId>, k: set<NodeId>, u: set<NodeId>, s: State, y: NodeId,
                  n: NodeId)
    requires ValidGraph(c.graph) && TopologicalOrder(c.graph, order) && Unanimity(c, m, k, u) && Tracks(c, k, u, s)
    requires CanBeLast(c, y, n) && SourcesIn(c, k, n) && SourcesIn(c, u, n)
    requires s.running <= {y} && y !in s.completed
    ensures y in s.running && forall z :: HasEdge(c, z, n) && z != y ==> z in s.completed
  {
    hide Tracks, Settles, UnanimousAt, Reach, TopologicalOrder;
    forall z | HasEdge(c, z, n) && z != y ensures z in s.completed {
      var i := PositionIn(c, u, order, z);
      SettledCompletes(c, m, k, u, s, order, i, {y});
    }
    forall e | e in c.graph.edges && e.to == y ensures e.from in s.completed {
      NoWayBack(c.graph, order, e);
      assert e.from in u;
      SettlesAt(c, m, k, y);
      assert HasEdge(c, e.from, y);
      var i := PositionIn(c, u, order, e.from);
      SettledCompletes(c, m, k, u, s, order, i, {y});
    }
    TracksLower(c, k, u, s, y);
  }

  /** If a source that can finish last holds, some schedule completes the target. */
  lemma WakingSchedule(c: Config, h: Handler, m: Results, order: seq<NodeId>, k: set<NodeId>, u: set<NodeId>,
                       y: NodeId, n: NodeId)
    returns (picks: seq<nat>)
    requires Meaning(c, h, m) && TopologicalOrder(c.graph, order) && Unanimity(c, m, k, u)
    requires CanBeLast(c, y, n) && SourcesIn(c, k, n) && SourcesIn(c, u, n) && Holding(c, m, y, n) && n in m
    ensures RunWith(c, h, picks).tasks == [] && n in RunWith(c, h, picks).completed
  {
    assert ValidGraph(c.graph);
    hide Meaning, RunWith, FullBooks, Holding, Tracks, Sound, ValidGraph, TopologicalOrder, Settles, ClosedUp;
    hide UnanimousAt, CanBeLast;
    NothingCompleted(c, h);
    picks := HoldBack(c, h, m, [], y);
    var s := RunWith(c, h, picks);
    RunSound(c, h, m, picks);
    RunTracks(c, h, m, k, u, picks);
    HeldReady(c, m, order, k, u, s, y, n);
    assert Books(c, s) by { BooksOf(c, s); }
    var i := RunningHasTaskAt(c, s, y);
    PickNext(c, h, m, picks, i);
    var s' := RunWith(c, h, picks + [i]);
    forall e | e in c.graph.edges && e.to == n ensures e.from in s'.completed {
      assert HasEdge(c, e.from, n);
    }
    assert Due(c, m, s', y, n);
    assert Begun(s', n);
    picks := RunOut(c, h, m, picks + [i]);
  }

  // ---- The theorems ----

  /** Two finished runs did the same: the same nodes, the same outputs, the same tasks started as often. */
  ghost predicate Agree(s: State, s': State) {
    && s.completed == s'.completed
    && (forall n :: n in s.completed ==> n in s.outputs && n in s'.outputs && s.outputs[n] == s'.outputs[n])
    && (forall t :: StartCount(s.log, t) == StartCount(s'.log, t))
  }

  ghost predicate SchedulesAgree(c: Config, h: Handler) {
    forall picks, picks' :: RunWith(c, h, picks).tasks == [] && RunWith(c, h, picks').tasks == [] ==>
      Agree(RunWith(c, h, picks), RunWith(c, h, picks'))
  }

  lemma AllNodesClosed(c: Config)
    requires ValidGraph(c.graph)
    ensures ClosedUp(c, Elements(c.graph.nodes))
  {
  }

  /** In a unanimous flow every schedule completes exactly what is settled. */
  lemma UnanimousCompletes(c: Config, h: Handler, m: Results, order: seq<NodeId>, k: set<NodeId>, picks: seq<nat>)
    requires Meaning(c, h, m) && TopologicalOrder(c.graph, order) && Settles(c, m, k) && Unanimous(c, m, k)
    requires RunWith(c, h, picks).tasks == []
    ensures RunWith(c, h, picks).completed == k
  {
    assert ValidGraph(c.graph);
    MeaningShape(c, h, m);
    hide Meaning, RunWith, UnanimousAt, ValidGraph, TopologicalOrder, Starts;
    var u := Elements(c.graph.nodes);
    AllNodesClosed(c);
    RunSound(c, h, m, picks);
    hide Sound, Settles, NodeBooks;
    var s := RunWith(c, h, picks);
    forall n ensures n in s.completed <==> n in k {
      if n in u {
        EndsSettled(c, h, m, order, k, u, picks, n);
      } else {
        SettledInGraph(c, m, k, n);
      }
    }
  }

  lemma SettledInGraph(c: Config, m: Results, k: set<NodeId>, n: NodeId)
    requires Settles(c, m, k)
    ensures n in k ==> n in m
  {
  }

  /** Sound finished runs that complete the same nodes agree in everything. */
  lemma SameCompletedAgree(c: Config, m: Results, s: State, s': State)
    requires Sound(c, m, s) && Sound(c, m, s') && s.running == {} && s'.running == {} && s.completed == s'.completed
    ensures Agree(s, s')
  {
    hide StartCount, TaskFor, SoundTasks, SoundNodes, SoundCounts;
    forall t ensures StartCount(s.log, t) == StartCount(s'.log, t) {
      assert Begun(s, t.node) <==> Begun(s', t.node);
    }
  }

  lemma FinishedAgree(c: Config, h: Handler, m: Results, picks: seq<nat>, picks': seq<nat>)
    requires Meaning(c, h, m)
    requires var s, s' := RunWith(c, h, picks), RunWith(c, h, picks');
      s.tasks == [] && s'.tasks == [] && s.completed == s'.completed
    ensures Agree(RunWith(c, h, picks), RunWith(c, h, picks'))
  {
    hide Meaning, RunWith, Sound, Agree, Books, NodeBooks;
    RunSound(c, h, m, picks);
    RunSound(c, h, m, picks');
    NothingRuns(c, RunWith(c, h, picks));
    NothingRuns(c, RunWith(c, h, picks'));
    SameCompletedAgree(c, m, RunWith(c, h, picks), RunWith(c, h, picks'));
  }

  /** The first node, in topological order, whose last sources disagree. */
  lemma {:induction false} FirstDissent(c: Config, m: Results, k: set<NodeId>, order: seq<NodeId>, i: nat)
    returns (j: nat)
    requires i < |order| && !UnanimousAt(c, m, k, order[i])
    ensures j <= i && !UnanimousAt(c, m, k, order[j]) && forall l :: 0 <= l < j ==> UnanimousAt(c, m, k, order[l])
  {
    hide UnanimousAt;
    if l :| 0 <= l < i && !UnanimousAt(c, m, k, order[l]) {
      j := FirstDissent(c, m, k, order, l);
    } else {
      j := i;
    }
  }

  lemma BeforeClosed(c: Config, order: seq<NodeId>, j: nat)
    requires TopologicalOrder(c.graph, order) && j < |order|
    ensures ClosedUp(c, Elements(order[..j])) && SourcesIn(c, Elements(order[..j]), order[j])
  {
    forall e | e in c.graph.edges && e.to in order[..j] ensures e.from in order[..j] {
      var l :| 0 <= l < j && order[l] == e.to;
      assert e.from in order[..l];
    }
  }

  lemma HoldingInMeaning(c: Config, h: Handler, m: Results, k: set<NodeId>, y: NodeId, n: NodeId)
    requires Meaning(c, h, m) && Settles(c, m, k) && SourcesIn(c, k, n) && Holding(c, m, y, n)
    ensures n in m
  {
    hide Condition, InputFor, NoFanOut, Starts;
    var e :| e in c.graph.edges && e.from == y && e.to == n && Condition(e, m[y]);
    assert e in In(c, n) && n in c.graph.nodes;
    forall x | x in In(c, n) ensures x.from in m {
      assert HasEdge(c, x.from, n);
    }
    assert Solves(c, h, m, n);
  }

  /** Where the last sources disagree, two schedules disagree. */
  lemma DissentSplits(c: Config, h: Handler, m: Results, order: seq<NodeId>, k: set<NodeId>, n: NodeId)
    returns (picks: seq<nat>, picks': seq<nat>)
    requires Meaning(c, h, m) && TopologicalOrder(c.graph, order) && Settles(c, m, k)
    requires n in c.graph.nodes && !UnanimousAt(c, m, k, n)
    ensures RunWith(c, h, picks).tasks == [] && RunWith(c, h, picks').tasks == []
    ensures RunWith(c, h, picks).completed != RunWith(c, h, picks').completed
  {
    var i :| 0 <= i < |order| && order[i] == n;
    var j := FirstDissent(c, m, k, order, i);
    var first := order[j];
    BeforeClosed(c, order, j);
    var u := Elements(order[..j]);
    var y, y' :| CanBeLast(c, y, first) && CanBeLast(c, y', first) && Holding(c, m, y, first) &&
      !Holding(c, m, y', first);
    assert SourcesIn(c, k, first);
    hide Meaning, RunWith, TopologicalOrder, Holding, CanBeLast, Settles, UnanimousAt;
    HoldingInMeaning(c, h, m, k, y, first);
    picks := WakingSchedule(c, h, m, order, k, u, y, first);
    picks' := StrandingSchedule(c, h, m, y', first);
  }

  /** Schedule independence, exactly: all schedules of an acyclic flow do the same if and only if
      at every join whose sources all run, those that can finish last agree on starting it. */
  lemma AgreeIffUnanimous(c: Config, h: Handler, order: seq<NodeId>)
    requires Assumptions(c, h, order)
    ensures var m := Sequential(c, h, order);
      SchedulesAgree(c, h) <==> Unanimous(c, m, Settled(c, m, order))
  {
    var m := Sequential(c, h, order);
    SequentialIsMeaning(c, h, order);
    var k := Settled(c, m, order);
    SettledSettles(c, m, order);
    assert TopologicalOrder(c.graph, order);
    hide Assumptions, Meaning, RunWith, Settled, Settles, TopologicalOrder, Sequential, UnanimousAt;
    if Unanimous(c, m, k) {
      forall picks, picks' | RunWith(c, h, picks).tasks == [] && RunWith(c, h, picks').tasks == []
        ensures Agree(RunWith(c, h, picks), RunWith(c, h, picks'))
      {
        UnanimousCompletes(c, h, m, order, k, picks);
        UnanimousCompletes(c, h, m, order, k, picks');
        FinishedAgree(c, h, m, picks, picks');
      }
    } else {
      var n :| n in c.graph.nodes && !UnanimousAt(c, m, k, n);
      var picks, picks' := DissentSplits(c, h, m, order, k, n);
      assert !Agree(RunWith(c, h, picks), RunWith(c, h, picks'));
    }
  }

  /** Every source that can finish last has an edge that holds. */
  ghost predicate LastSourceHolds(c: Config, m: Results) {
    forall n, y :: n in m && CanBeLast(c, y, n) ==> Holding(c, m, y, n)
  }

  ghost predicate AlwaysCompletes(c: Config, h: Handler, k: set<NodeId>) {
    forall picks :: RunWith(c, h, picks).tasks == [] ==> RunWith(c, h, picks).completed == k
  }

  lemma {:induction false} AllSettled(c: Config, h: Handler, m: Results, order: seq<NodeId>, k: set<NodeId>, i: nat)
    requires Meaning(c, h, m) && TopologicalOrder(c.graph, order) && Settles(c, m, k) && LastSourceHolds(c, m)
    requires i < |order| && order[i] in m
    ensures order[i] in k
    decreases i
  {
    assert order[i] in c.graph.nodes && Solves(c, h, m, order[i]);
    forall y | HasEdge(c, y, order[i]) ensures y in k {
      var e :| e in c.graph.edges && e.from == y && e.to == order[i];
      assert e in In(c, order[i]) && y in m;
      var j := SourceEarlier(c.graph, order, i, e);
      AllSettled(c, h, m, order, k, j);
    }
    hide Holding, CanBeLast;
    SettlesAt(c, m, k, order[i]);
  }

  lemma HoldingUnanimous(c: Config, h: Handler, m: Results, k: set<NodeId>)
    requires Meaning(c, h, m) && Settles(c, m, k) && LastSourceHolds(c, m)
    ensures Unanimous(c, m, k)
  {
    hide Meaning, Holding, CanBeLast, Settles;
    forall n, y, y' | SourcesIn(c, k, n) && CanBeLast(c, y, n) && CanBeLast(c, y', n) && Holding(c, m, y, n)
      ensures Holding(c, m, y', n)
    {
      HoldingInMeaning(c, h, m, k, y, n);
    }
  }

  /** Every schedule completes exactly the sequential evaluation if and only if every source that
      can finish last has an edge that holds. */
  lemma CompletesIffLastSourceHolds(c: Config, h: Handler, order: seq<NodeId>)
    requires Assumptions(c, h, order)
    ensures var m := Sequential(c, h, order); AlwaysCompletes(c, h, m.Keys) <==> LastSourceHolds(c, m)
  {
    var m := Sequential(c, h, order);
    SequentialIsMeaning(c, h, order);
    var k := Settled(c, m, order);
    SettledSettles(c, m, order);
    if LastSourceHolds(c, m) {
      LastSourceCompletes(c, h, m, order, k);
    }
    if AlwaysCompletes(c, h, m.Keys) {
      CompletesLastSource(c, h, m, order, k);
    }
  }

  lemma LastSourceCompletes(c: Config, h: Handler, m: Results, order: seq<NodeId>, k: set<NodeId>)
    requires Meaning(c, h, m) && TopologicalOrder(c.graph, order) && Settles(c, m, k) && LastSourceHolds(c, m)
    ensures AlwaysCompletes(c, h, m.Keys)
  {
    MeaningShape(c, h, m);
    hide Meaning, RunWith, LastSourceHolds, Starts;
    HoldingUnanimous(c, h, m, k);
    forall n | n in m ensures n in k {
      var i :| 0 <= i < |order| && order[i] == n;
      AllSettled(c, h, m, order, k, i);
    }
    assert k == m.Keys;
    hide Settles, TopologicalOrder;
    forall picks | RunWith(c, h, picks).tasks == [] ensures RunWith(c, h, picks).completed == k {
      UnanimousCompletes(c, h, m, order, k, picks);
    }
  }

  lemma CompletesLastSource(c: Config, h: Handler, m: Results, order: seq<NodeId>, k: set<NodeId>)
    requires Meaning(c, h, m) && TopologicalOrder(c.graph, order) && Settles(c, m, k) && AlwaysCompletes(c, h, m.Keys)
    ensures LastSourceHolds(c, m)
  {
    hide Meaning, RunWith, Holding, CanBeLast, TopologicalOrder, Settles;
    forall n, y | n in m && CanBeLast(c, y, n) ensures Holding(c, m, y, n) {
      if !Holding(c, m, y, n) {
        var picks := StrandingSchedule(c, h, m, y, n);
        assert n !in RunWith(c, h, picks).completed;
      }
    }
  }

  /** In full: if every source that can finish last has an edge that holds, every schedule ends with
      exactly the nodes, inputs and outputs of the sequential evaluation: the same nodes completed,
      the same outputs, each such node started once, on the same input, and nothing else started. */
  lemma ScheduleIndependent(c: Config, h: Handler, order: seq<NodeId>, picks: seq<nat>)
    requires Assumptions(c, h, order) && LastSourceHolds(c, Sequential(c, h, order)) && RunWith(c, h, picks).tasks == []
    ensures var s, m := RunWith(c, h, picks), Sequential(c, h, order);
      && s.completed == m.Keys && s.failed == {}
      && (forall n :: n in m ==> n in s.outputs && s.outputs[n] == m[n])
      && (forall t :: StartCount(s.log, t) == if t.node in m && t == TaskFor(c, m, t.node) then 1 else 0)
  {
    hide RunWith, Sequential, Books, NodeBooks, TaskFor, StartCount, Meaning, Assumptions, LastSourceHolds;
    var s, m := RunWith(c, h, picks), Sequential(c, h, order);
    SequentialIsMeaning(c, h, order);
    CompletesIffLastSourceHolds(c, h, order);
    RunSound(c, h, m, picks);
    NothingRuns(c, s);
    forall n ensures Begun(s, n) <==> n in m {}
  }

  /** The same for a graph as the back-edge search analyses it. */
  lemma AcyclicAgreeIffUnanimous(c: Config, h: Handler, found: seq<NodeId>)
    requires ValidGraph(c.graph) && Acyclic(c.graph) && BackEdges.Analysed(c.graph, c.back, found)
    requires c.maxTraversals >= 1 && NoFanOut(c, Sequential(c, h, Reversed(found)))
    ensures var m := Sequential(c, h, Reversed(found));
      && (SchedulesAgree(c, h) <==> Unanimous(c, m, Settled(c, m, Reversed(found))))
      && (AlwaysCompletes(c, h, m.Keys) <==> LastSourceHolds(c, m))
  {
    BackEdges.AcyclicSorts(c.graph, c.back, found);
    hide SchedulesAgree, Unanimous, AlwaysCompletes, LastSourceHolds, Sequential, NoFanOut;
    AgreeIffUnanimous(c, h, Reversed(found));
    CompletesIffLastSourceHolds(c, h, Reversed(found));
  }

  // ---- Unconditional joins ----

  /** A conditional edge is the only edge into its target. */
  ghost predicate JoinsUnconditional(g: Graph) {
    forall e, e' :: e in g.edges && e' in g.edges && e.condition.Some? && e'.to == e.to ==> e' == e
  }

  /** A flow whose joins are unconditional meets the condition. */
  lemma UnconditionalJoinsHold(c: Config, h: Handler, m: Results)
    requires Meaning(c, h, m) && JoinsUnconditional(c.graph)
    ensures LastSourceHolds(c, m)
  {
    hide NoFanOut, InputFor, Reach;
    forall n, y | n in m && CanBeLast(c, y, n) ensures Holding(c, m, y, n) {
      var e :| e in c.graph.edges && e.from == y && e.to == n;
      assert Solves(c, h, m, n) && e in In(c, n);
      if e.condition.Some? {
        var e' :| e' in In(c, n) && e'.from in m && Condition(e', m[e'.from]);
        assert e' == e;
      }
      assert Condition(e, m[y]);
    }
  }
}
