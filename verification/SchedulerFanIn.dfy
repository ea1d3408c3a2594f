/** Fan-out batches: in any completion order, each fan-in merges its own batch, slot by slot, once. */
module SchedulerFanIn {
  import opened Common
  import opened Graph
  import opened Scheduler
  import opened SchedulerBooks

  // ---- Batches in the history ----

  ghost predicate StartsInstance(x: Entry, n: NodeId, i: int) {
    i >= 0 && x.Started? && x.task.node == n && x.task.index == Some(i)
  }

  /** An instance of `n` has finished. */
  ghost predicate IsReport(x: Entry, n: NodeId) {
    x.Finished? && x.task.node == n && x.task.index.Some?
  }

  ghost predicate Reports(x: Entry, n: NodeId, i: nat, v: Json) {
    IsReport(x, n) && x.task.index.value == i && v == Slot(x.outcome, i)
  }

  ghost predicate Holds(slots: seq<Option<Json>>, x: Entry)
    requires x.Finished? && x.task.index.Some?
  {
    var i := x.task.index.value;
    i < |slots| && slots[i] == Some(Slot(x.outcome, i))
  }

  ghost predicate IsFanIn(x: Entry, n: NodeId) { x.FannedIn? && x.node == n }

  /** Instances 0, 1, ... of `n` are started at position `p`. */
  ghost predicate BatchAt(log: seq<Entry>, p: nat, n: NodeId, size: nat) {
    p + size <= |log| && forall j :: p <= j < p + size ==> StartsInstance(log[j], n, j - p)
  }

  ghost predicate HasReport(log: seq<Entry>, p: nat, q: nat, n: NodeId, i: nat, v: Json)
    requires q <= |log|
  {
    exists j :: p <= j < q && Reports(log[j], n, i, v)
  }

  /** Between positions `p` and `q` exactly the filled slots have been reported, each once,
      and each holds what its own instance reported. */
  ghost predicate SlotsMatch(log: seq<Entry>, p: nat, q: nat, n: NodeId, slots: seq<Option<Json>>)
    requires q <= |log|
  {
    && (forall i :: 0 <= i < |slots| && slots[i].Some? ==> HasReport(log, p, q, n, i, slots[i].value))
    && (forall j :: p <= j < q && IsReport(log[j], n) ==> Holds(slots, log[j]))
    && (forall j, j' :: p <= j < j' < q && IsReport(log[j], n) && IsReport(log[j'], n) ==>
          log[j].task.index != log[j'].task.index)
  }

  ghost predicate NoFanIn(log: seq<Entry>, p: nat, q: nat, n: NodeId)
    requires q <= |log|
  {
    forall j :: p <= j < q ==> !IsFanIn(log[j], n)
  }

  /** A batch started at `p` and not yet merged. */
  ghost predicate OpenBatch(log: seq<Entry>, p: nat, n: NodeId, slots: seq<Option<Json>>) {
    && BatchAt(log, p, n, |slots|)
    && SlotsMatch(log, p, |log|, n, slots)
    && NoFanIn(log, p, |log|, n)
  }

  function AllSome(merged: seq<Json>): (r: seq<Option<Json>>)
    ensures |r| == |merged| && forall i :: 0 <= i < |r| ==> r[i] == Some(merged[i])
  {
    seq(|merged|, i requires 0 <= i < |merged| => Some(merged[i]))
  }

  /** The fan-in at `q` merges the batch started at `p`: position i holds the outcome of instance i. */
  ghost predicate MergesBatch(log: seq<Entry>, p: nat, q: nat) {
    && p < q < |log| && log[q].FannedIn? && log[q].merged != []
    && p + |log[q].merged| <= q
    && BatchAt(log, p, log[q].node, |log[q].merged|)
    && SlotsMatch(log, p, q, log[q].node, AllSome(log[q].merged))
    && NoFanIn(log, p, q, log[q].node)
  }

  ghost predicate IsMerged(log: seq<Entry>, p: nat) { exists q :: MergesBatch(log, p, q) }
  ghost predicate Merges(log: seq<Entry>, q: nat) { exists p :: MergesBatch(log, p, q) }

  ghost predicate HasOpenBatch(s: State, n: NodeId)
    requires n in s.fan
  {
    exists p :: OpenBatch(s.log, p, n, s.fan[n].results)
  }

  ghost predicate IsBatchHead(x: Entry) { x.Started? && x.task.index == Some(0) }

  ghost predicate HeadAccounted(s: State, p: nat)
    requires p < |s.log|
  {
    IsBatchHead(s.log[p]) ==>
      || IsMerged(s.log, p)
      || (s.log[p].task.node in s.fan && OpenBatch(s.log, p, s.log[p].task.node, s.fan[s.log[p].task.node].results))
  }

  /** Every fan-out under way has its batch, every fan-in merged one, and no batch is lost. */
  ghost predicate Batches(s: State) {
    && (forall n :: n in s.fan ==> HasOpenBatch(s, n))
    && (forall q :: 0 <= q < |s.log| && s.log[q].FannedIn? ==> Merges(s.log, q))
    && (forall p :: 0 <= p < |s.log| ==> HeadAccounted(s, p))
  }

  // ---- Entries that do not concern a batch ----

  ghost predicate Quiet(xs: seq<Entry>, n: NodeId) {
    forall x :: x in xs ==> !IsFanIn(x, n) && !IsReport(x, n)
  }

  lemma SlotsMatchAppend(log: seq<Entry>, p: nat, q: nat, n: NodeId, slots: seq<Option<Json>>, xs: seq<Entry>)
    requires q <= |log| && SlotsMatch(log, p, q, n, slots)
    ensures SlotsMatch(log + xs, p, q, n, slots)
  {
    var longer := log + xs;
    forall i | 0 <= i < |slots| && slots[i].Some? ensures HasReport(longer, p, q, n, i, slots[i].value) {
      var j :| p <= j < q && Reports(log[j], n, i, slots[i].value);
      assert longer[j] == log[j];
    }
  }

  lemma SlotsMatchQuiet(log: seq<Entry>, p: nat, n: NodeId, slots: seq<Option<Json>>, xs: seq<Entry>)
    requires SlotsMatch(log, p, |log|, n, slots) && Quiet(xs, n)
    ensures SlotsMatch(log + xs, p, |log + xs|, n, slots)
  {
    var longer := log + xs;
    forall i | 0 <= i < |slots| && slots[i].Some? ensures HasReport(longer, p, |longer|, n, i, slots[i].value) {
      var j :| p <= j < |log| && Reports(log[j], n, i, slots[i].value);
      assert longer[j] == log[j];
    }
    forall j | |log| <= j < |longer| ensures !IsReport(longer[j], n) {
      assert longer[j] in xs;
    }
  }

  lemma OpenBatchQuiet(log: seq<Entry>, p: nat, n: NodeId, slots: seq<Option<Json>>, xs: seq<Entry>)
    requires OpenBatch(log, p, n, slots) && Quiet(xs, n)
    ensures OpenBatch(log + xs, p, n, slots)
  {
    hide SlotsMatch;
    SlotsMatchQuiet(log, p, n, slots, xs);
    forall j | |log| <= j < |log + xs| ensures !IsFanIn((log + xs)[j], n) {
      assert (log + xs)[j] in xs;
    }
  }

  lemma MergesBatchAppend(log: seq<Entry>, p: nat, q: nat, xs: seq<Entry>)
    requires MergesBatch(log, p, q)
    ensures MergesBatch(log + xs, p, q)
  {
    hide SlotsMatch;
    SlotsMatchAppend(log, p, q, log[q].node, AllSome(log[q].merged), xs);
  }

  /** Appending entries that are neither fan-ins nor batch heads nor reports of an open batch. */
  lemma BatchesAppend(s: State, s': State, xs: seq<Entry>)
    requires Batches(s) && s'.log == s.log + xs && s'.fan == s.fan
    requires forall x :: x in xs ==> !x.FannedIn? && !IsBatchHead(x)
    requires forall n :: n in s.fan ==> Quiet(xs, n)
    ensures Batches(s')
  {
    hide MergesBatch, OpenBatch, Quiet;
    forall n | n in s'.fan ensures HasOpenBatch(s', n) {
      var p :| OpenBatch(s.log, p, n, s.fan[n].results);
      OpenBatchQuiet(s.log, p, n, s.fan[n].results, xs);
    }
    MergesAppend(s, s', xs);
    forall p | 0 <= p < |s'.log| ensures HeadAccounted(s', p) {
      if p < |s.log| {
        HeadAppend(s, s', xs, p);
      } else {
        assert s'.log[p] in xs;
      }
    }
  }

  lemma MergesAppend(s: State, s': State, xs: seq<Entry>)
    requires Batches(s) && s'.log == s.log + xs && forall x :: x in xs ==> !x.FannedIn?
    ensures forall q :: 0 <= q < |s'.log| && s'.log[q].FannedIn? ==> Merges(s'.log, q)
  {
    hide MergesBatch, HeadAccounted, HasOpenBatch;
    forall q | 0 <= q < |s'.log| && s'.log[q].FannedIn? ensures Merges(s'.log, q) {
      if q < |s.log| {
        assert Merges(s.log, q);
        var p :| MergesBatch(s.log, p, q);
        MergesBatchAppend(s.log, p, q, xs);
      }
    }
  }

  lemma HeadAppend(s: State, s': State, xs: seq<Entry>, p: nat)
    requires p < |s.log| && HeadAccounted(s, p) && s'.log == s.log + xs
    requires !IsMerged(s.log, p) && IsBatchHead(s.log[p]) ==>
      var n := s.log[p].task.node; n in s'.fan && n in s.fan && s'.fan[n] == s.fan[n] && Quiet(xs, n)
    ensures HeadAccounted(s', p)
  {
    hide MergesBatch, OpenBatch, Quiet;
    if IsMerged(s.log, p) {
      var q :| MergesBatch(s.log, p, q);
      MergesBatchAppend(s.log, p, q, xs);
    } else if IsBatchHead(s.log[p]) {
      var n := s.log[p].task.node;
      OpenBatchQuiet(s.log, p, n, s.fan[n].results, xs);
    }
  }

  // ---- Starting a batch ----

  lemma FreshBatch(log: seq<Entry>, n: NodeId, items: seq<Json>)
    ensures OpenBatch(log + StartEntries(FanOutTasks(n, items)), |log|, n, NewFanOut(|items|).results)
  {
  }

  lemma StartsQuiet(tasks: seq<Task>, n: NodeId)
    ensures Quiet(StartEntries(tasks), n)
  {
  }

  lemma SpawnFanOutBatches(s: State, n: NodeId, items: seq<Json>)
    requires Batches(s) && n !in s.fan && items != []
    ensures Batches(AddTasks(s.(fan := s.fan[n := NewFanOut(|items|)]), FanOutTasks(n, items)))
  {
    hide MergesBatch, OpenBatch, Quiet;
    var xs := StartEntries(FanOutTasks(n, items));
    var s' := AddTasks(s.(fan := s.fan[n := NewFanOut(|items|)]), FanOutTasks(n, items));
    FreshBatch(s.log, n, items);
    forall m | m in s'.fan ensures HasOpenBatch(s', m) {
      if m == n {
        assert OpenBatch(s'.log, |s.log|, n, s'.fan[n].results);
      } else {
        var p :| OpenBatch(s.log, p, m, s.fan[m].results);
        StartsQuiet(FanOutTasks(n, items), m);
        OpenBatchQuiet(s.log, p, m, s.fan[m].results, xs);
      }
    }
    MergesAppend(s, s', xs);
    forall p | 0 <= p < |s'.log| ensures HeadAccounted(s', p) {
      if p < |s.log| {
        if s.log[p].Started? {
          StartsQuiet(FanOutTasks(n, items), s.log[p].task.node);
        }
        assert HeadAccounted(s, p);
        HeadAppend(s, s', xs, p);
      } else {
        assert s'.log[p] == Started(Task(n, Some(p - |s.log|), items[p - |s.log|]));
      }
    }
  }

  lemma SpawnNormalBatches(c: Config, s: State, n: NodeId)
    requires Batches(s)
    ensures Batches(SpawnNormal(c, s, n))
  {
    hide Batches, ResolveInputs;
    var t := Task(n, None, ResolveInputs(c, s.outputs, n));
    forall m ensures Quiet(StartEntries([t]), m) {
      StartsQuiet([t], m);
    }
    BatchesAppend(s, SpawnNormal(c, s, n), StartEntries([t]));
  }

  lemma SpawnBatches(c: Config, s: State, r: ReadyNode)
    requires Batches(s) && r.node !in s.fan && (r.items.Some? ==> r.items.value != [])
    ensures Batches(Spawn(c, s, r))
  {
    var s1 := if r.isCycle then s.(completed := s.completed - {r.node}) else s;
    assert Batches(s1) by { BatchesAppend(s, s1, []); }
    hide Batches, ResolveInputs;
    match r.items {
      case Some(items) => SpawnFanOutBatches(s1, r.node, items);
      case None => SpawnNormalBatches(c, s1, r.node);
    }
  }

  lemma {:induction false} SpawnAllBatches(c: Config, s: State, ready: seq<ReadyNode>)
    requires Batches(s) && DistinctNodes(ready)
    requires forall r :: r in ready ==> r.node !in s.fan && (r.items.Some? ==> r.items.value != [])
    ensures Batches(SpawnAll(c, s, ready))
  {
    hide Batches, Spawn;
    if ready != [] {
      var front, r := ready[..|ready| - 1], ready[|ready| - 1];
      SpawnAllBatches(c, s, front);
      SpawnAllFrame(c, s, front, r.node);
      SpawnBatches(c, SpawnAll(c, s, front), r);
    }
  }

  lemma {:induction false} SpawnAllNormalBatches(c: Config, s: State, nodes: seq<NodeId>)
    requires Batches(s)
    ensures Batches(SpawnAllNormal(c, s, nodes))
  {
    hide Batches, SpawnNormal;
    if nodes != [] {
      SpawnAllNormalBatches(c, s, nodes[..|nodes| - 1]);
      SpawnNormalBatches(c, SpawnAllNormal(c, s, nodes[..|nodes| - 1]), nodes[|nodes| - 1]);
    }
  }

  lemma DownstreamBatches(c: Config, s: State, n: NodeId, output: Json, fromFanIn: bool)
    requires Books(c, s) && Batches(s)
    ensures Batches(Downstream(c, s, n, output, fromFanIn))
  {
    hide Tally, ScanEdges, SpawnAll, IsNodeReady, HeadAccounted, Merges, HasOpenBatch, EmptySlots;
    var a := ScanEdges(c, s, output, fromFanIn, Out(c, n));
    ScanReady(c, s, output, fromFanIn, Out(c, n));
    var s1 := s.(counts := a.counts);
    BatchesAppend(s, s1, []);
    forall r | r in a.ready ensures r.node !in s.fan && (r.items.Some? ==> r.items.value != []) {
      assert Startable(c, s, r);
    }
    SpawnAllBatches(c, s1, a.ready);
  }

  // ---- Finishing an instance ----

  lemma FillMatches(log: seq<Entry>, p: nat, n: NodeId, f: FanOut, t: Task, o: Outcome)
    requires SlotsMatch(log, p, |log|, n, f.results) && p <= |log|
    requires t.node == n && t.index.Some? && t.index.value in EmptySlots(f)
    ensures SlotsMatch(log + [Finished(t, o)], p, |log| + 1, n, Fill(f, t.index.value, o).results)
  {
    var longer, i := log + [Finished(t, o)], t.index.value;
    var slots := Fill(f, i, o).results;
    forall k | 0 <= k < |slots| && slots[k].Some? ensures HasReport(longer, p, |log| + 1, n, k, slots[k].value) {
      if k == i {
        assert Reports(longer[|log|], n, i, slots[i].value);
      } else {
        var j :| p <= j < |log| && Reports(log[j], n, k, f.results[k].value);
        assert longer[j] == log[j];
      }
    }
    forall j | p <= j < |longer| && IsReport(longer[j], n) ensures Holds(slots, longer[j]) {
      if j < |log| {
        assert Holds(f.results, log[j]);
      }
    }
  }

  lemma FillOpen(log: seq<Entry>, p: nat, n: NodeId, f: FanOut, t: Task, o: Outcome)
    requires OpenBatch(log, p, n, f.results)
    requires t.node == n && t.index.Some? && t.index.value in EmptySlots(f)
    ensures OpenBatch(log + [Finished(t, o)], p, n, Fill(f, t.index.value, o).results)
  {
    hide SlotsMatch;
    FillMatches(log, p, n, f, t, o);
  }

  /** The finishing instance fills its slot in its own batch; every other batch is untouched. */
  lemma FilledBatches(c: Config, s: State, k: nat, o: Outcome)
    requires Books(c, s) && Batches(s) && k < |s.tasks| && s.tasks[k].index.Some?
    ensures var t := s.tasks[k];
      && t.node in s.fan
      && var s1 := Taken(s, k, o);
         Batches(s1.(fan := s1.fan[t.node := Fill(s1.fan[t.node], t.index.value, o)]))
  {
    hide Books, Fill, OpenBatch, MergesBatch, EmptySlots, Merges, FanOutOpen;
    InstanceHasSlot(c, s, k);
    var t, s1 := s.tasks[k], Taken(s, k, o);
    var n, xs := t.node, [Finished(t, o)];
    var f := Fill(s.fan[n], t.index.value, o);
    var s' := s1.(fan := s1.fan[n := f]);
    forall m | m in s'.fan ensures HasOpenBatch(s', m) {
      var p :| OpenBatch(s.log, p, m, s.fan[m].results);
      if m == n {
        FillOpen(s.log, p, n, s.fan[n], t, o);
      } else {
        OpenBatchQuiet(s.log, p, m, s.fan[m].results, xs);
      }
    }
    MergesAppend(s, s', xs);
    forall p | 0 <= p < |s'.log| ensures HeadAccounted(s', p) {
      if p < |s.log| {
        assert HeadAccounted(s, p);
        if IsBatchHead(s.log[p]) && s.log[p].task.node == n && !IsMerged(s.log, p) {
          FillOpen(s.log, p, n, s.fan[n], t, o);
        } else {
          HeadAppend(s, s', xs, p);
        }
      }
    }
  }

  // ---- Fan-in ----

  /** All slots filled: the fan-in that follows merges the open batch. */
  lemma CloseMerges(log: seq<Entry>, p: nat, n: NodeId, f: FanOut)
    requires OpenBatch(log, p, n, f.results) && EmptySlots(f) == {} && f.results != []
    ensures MergesBatch(log + [FannedIn(n, Merged(f.results)), Done(n)], p, |log|)
  {
    var merged := Merged(f.results);
    var xs := [FannedIn(n, merged), Done(n)];
    forall i | 0 <= i < |f.results| ensures f.results[i].Some? {
      assert i !in EmptySlots(f);
    }
    assert AllSome(merged) == f.results;
    hide SlotsMatch;
    SlotsMatchAppend(log, p, |log|, n, f.results, xs);
  }

  lemma CloseBatches(s: State, n: NodeId)
    requires Batches(s) && n in s.fan && EmptySlots(s.fan[n]) == {} && s.fan[n].results != []
    ensures Batches(FanInState(s, n, Merged(s.fan[n].results)))
  {
    hide MergesBatch, OpenBatch, EmptySlots;
    var f := s.fan[n];
    var xs := [FannedIn(n, Merged(f.results)), Done(n)];
    var s' := FanInState(s, n, Merged(f.results));
    assert s'.log == s.log + xs;
    forall m | m in s'.fan ensures HasOpenBatch(s', m) {
      var p :| OpenBatch(s.log, p, m, s.fan[m].results);
      OpenBatchQuiet(s.log, p, m, s.fan[m].results, xs);
    }
    forall q | 0 <= q < |s'.log| && s'.log[q].FannedIn? ensures Merges(s'.log, q) {
      if q < |s.log| {
        assert Merges(s.log, q);
        var p :| MergesBatch(s.log, p, q);
        MergesBatchAppend(s.log, p, q, xs);
      } else {
        var p :| OpenBatch(s.log, p, n, f.results);
        CloseMerges(s.log, p, n, f);
      }
    }
    forall p | 0 <= p < |s'.log| ensures HeadAccounted(s', p) {
      if p < |s.log| {
        assert HeadAccounted(s, p);
        if IsBatchHead(s.log[p]) && s.log[p].task.node == n && !IsMerged(s.log, p) {
          CloseMerges(s.log, p, n, f);
        } else {
          HeadAppend(s, s', xs, p);
        }
      }
    }
  }

  lemma InstanceBatches(c: Config, s: State, k: nat, o: Outcome)
    requires Books(c, s) && Batches(s) && k < |s.tasks| && s.tasks[k].index.Some?
    ensures var t, s1 := s.tasks[k], Taken(s, k, o);
      && t.node in s.fan
      && var f := Fill(s.fan[t.node], t.index.value, o);
         (f.completed == f.expected ==> Batches(FanInState(s1, t.node, Merged(f.results))))
  {
    hide Batches, Books, EmptySlots, Merged;
    var t, s1 := s.tasks[k], Taken(s, k, o);
    InstanceHasSlot(c, s, k);
    FillSlots(s.fan[t.node], t.index.value, o);
    var f := Fill(s.fan[t.node], t.index.value, o);
    FilledBatches(c, s, k, o);
    if f.completed == f.expected {
      assert EmptySlots(f) == {} && f.results != [];
      var s' := s1.(fan := s1.fan[t.node := f]);
      CloseBatches(s', t.node);
      assert s'.fan - {t.node} == s1.fan - {t.node};
    }
  }

  lemma InstanceStepBatches(c: Config, s: State, k: nat, o: Outcome)
    requires Books(c, s) && Batches(s) && EndpointsExist(c.graph) && k < |s.tasks| && s.tasks[k].index.Some?
    ensures Batches(Step(c, s, k, o))
  {
    StepCases(c, s, k, o);
    hide Books, Batches, Step, Merged, Downstream, Fill;
    var t, s1 := s.tasks[k], Taken(s, k, o);
    FillBooks(c, s, k, o);
    FilledBatches(c, s, k, o);
    InstanceBatches(c, s, k, o);
    var f := Fill(s.fan[t.node], t.index.value, o);
    if f.completed == f.expected {
      DownstreamBatches(c, FanInState(s1, t.node, Merged(f.results)), t.node, Array(Merged(f.results)), true);
    }
  }

  lemma StepBatches(c: Config, s: State, k: nat, o: Outcome)
    requires Books(c, s) && Batches(s) && EndpointsExist(c.graph) && k < |s.tasks|
    ensures Batches(Step(c, s, k, o))
  {
    hide Books, Batches, Step, Downstream, SpawnAllNormal, ReadyAfterFailure, Fill, Merged;
    var t, s1 := s.tasks[k], Taken(s, k, o);
    if t.index.Some? {
      InstanceStepBatches(c, s, k, o);
    } else {
      StepCases(c, s, k, o);
      NormalBooks(c, s, k, o, if o.Success? then o.value else Null);
      BatchesAppend(s, s1, [Finished(t, o)]);
      if o.Success? {
        BatchesAppend(s1, SuccessState(s1, t.node, o.value), [Done(t.node)]);
        DownstreamBatches(c, SuccessState(s1, t.node, o.value), t.node, o.value, false);
      } else {
        var s2 := FailureState(s1, t.node);
        BatchesAppend(s1, s2, [Done(t.node)]);
        SpawnAllNormalBatches(c, s2, ReadyAfterFailure(c, s2, Out(c, t.node)));
      }
    }
  }

  lemma InitBatches(c: Config)
    ensures Batches(Init(c))
  {
  }

  /** In every run, failures included: every fan-in merges exactly one batch, whose slot i holds
      what instance i reported (or its error marker); every batch is still open or has been
      merged; and a batch cannot be merged twice. */
  lemma {:induction false} RunBatches(c: Config, choices: seq<Choice>)
    requires ValidGraph(c.graph)
    ensures Batches(Run(c, choices))
  {
    hide Batches, Books, Step, Init;
    if choices == [] {
      InitBatches(c);
    } else {
      var s, ch := Run(c, choices[..|choices| - 1]), choices[|choices| - 1];
      RunBatches(c, choices[..|choices| - 1]);
      RunBooks(c, choices[..|choices| - 1]);
      if ch.k < |s.tasks| {
        StepBatches(c, s, ch.k, ch.outcome);
      }
    }
  }

  lemma MergedOnce(log: seq<Entry>, p: nat, q: nat, q': nat)
    requires MergesBatch(log, p, q) && MergesBatch(log, p, q')
    ensures q == q'
  {
    assert StartsInstance(log[p], log[q].node, 0) && StartsInstance(log[p], log[q'].node, 0);
    assert IsFanIn(log[q], log[q'].node) && IsFanIn(log[q'], log[q].node);
  }

  /** Once nothing is in flight every batch ever started has been merged, exactly once. */
  lemma EveryBatchMergedOnce(c: Config, choices: seq<Choice>, p: nat)
    requires ValidGraph(c.graph) && Run(c, choices).tasks == []
    requires p < |Run(c, choices).log| && IsBatchHead(Run(c, choices).log[p])
    ensures var log := Run(c, choices).log;
      IsMerged(log, p) && forall q, q' :: MergesBatch(log, p, q) && MergesBatch(log, p, q') ==> q == q'
  {
    hide Run, MergesBatch, OpenBatch;
    RunBatches(c, choices);
    var s := Run(c, choices);
    assert HeadAccounted(s, p);
    var n := s.log[p].task.node;
    if n in s.fan {
      FanOutInstances(c, choices, n);
    }
    forall q, q' | MergesBatch(s.log, p, q) && MergesBatch(s.log, p, q') ensures q == q' {
      MergedOnce(s.log, p, q, q');
    }
  }

  // ---- Fan-in does not cascade ----

  lemma {:induction false} FanInItems(c: Config, s: State, output: Json, edges: seq<Edge>)
    ensures forall r :: r in ScanEdges(c, s, output, true, edges).ready ==> r.items == None
  {
    hide Passes, Eligible;
    if edges != [] {
      FanInItems(c, s, output, edges[..|edges| - 1]);
    }
  }

  lemma {:induction false} SpawnWithoutItems(c: Config, s: State, ready: seq<ReadyNode>)
    requires forall r :: r in ready ==> r.items == None
    ensures SpawnAll(c, s, ready).fan == s.fan
  {
    hide ResolveInputs;
    if ready != [] {
      SpawnWithoutItems(c, s, ready[..|ready| - 1]);
      assert ready[|ready| - 1] in ready;
    }
  }

  /** An instance that finishes never opens a fan-out, even when the array it completes is
      passed on: fan-outs are opened only by nodes that ran as a whole. */
  lemma FanInNeverCascades(c: Config, s: State, k: nat, o: Outcome)
    requires k < |s.tasks| && s.tasks[k].index.Some?
    ensures Step(c, s, k, o).fan.Keys <= s.fan.Keys
  {
    StepCases(c, s, k, o);
    hide Step, Merged, ScanEdges, SpawnAll, Fill;
    var t, s1 := s.tasks[k], Taken(s, k, o);
    if t.node in s.fan {
      var merged := Merged(Fill(s.fan[t.node], t.index.value, o).results);
      var s2 := FanInState(s1, t.node, merged);
      var a := ScanEdges(c, s2, Array(merged), true, Out(c, t.node));
      FanInItems(c, s2, Array(merged), Out(c, t.node));
      SpawnWithoutItems(c, s2.(counts := a.counts), a.ready);
    }
  }
}
