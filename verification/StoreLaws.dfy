/** Laws of the event log: exact deduplication, confluence, crash recovery. */
module StoreLaws {
  import opened Common
  import opened Events
  import opened Store

  // ---- Grouping and screening keep the order ----

  /** The events of a run are picked out in the order of the batch. */
  lemma {:induction false} ForRunInOrder(a: seq<WriteEvent>, b: seq<WriteEvent>, r: RunId)
    ensures ForRun(a + b, r) == ForRun(a, r) + ForRun(b, r)
  {
    hide ForRun;
    if b == [] {
      assert a + b == a && ForRun([], r) == [] by { NoneForRun(r); }
    } else {
      ForRunInOrder(a, b[..|b| - 1], r);
      ForRunLast(a + b, r);
      ForRunLast(b, r);
      assert (a + b)[..|a + b| - 1] == a + b[..|b| - 1];
    }
  }

  lemma NoneForRun(r: RunId)
    ensures ForRun([], r) == []
  {
  }

  lemma ForRunLast(s: seq<WriteEvent>, r: RunId)
    requires s != []
    ensures ForRun(s, r) == ForRun(s[..|s| - 1], r) + if s[|s| - 1].runId == r then [s[|s| - 1]] else []
  {
  }

  /** What is not yet stored is kept in the order it came. */
  lemma {:induction false} UnseenInOrder(log: seq<WriteEvent>, a: seq<WriteEvent>, b: seq<WriteEvent>)
    ensures Unseen(log, a + b) == Unseen(log, a) + Unseen(log, b)
  {
    hide Unseen, HasSeq;
    if b == [] {
      assert a + b == a && Unseen(log, []) == [] by { NoneUnseen(log); }
    } else {
      UnseenInOrder(log, a, b[..|b| - 1]);
      UnseenLast(log, a + b);
      UnseenLast(log, b);
      assert (a + b)[..|a + b| - 1] == a + b[..|b| - 1];
    }
  }

  lemma NoneUnseen(log: seq<WriteEvent>)
    ensures Unseen(log, []) == []
  {
  }

  lemma UnseenLast(log: seq<WriteEvent>, s: seq<WriteEvent>)
    requires s != []
    ensures Unseen(log, s) ==
            Unseen(log, s[..|s| - 1]) + if HasSeq(log, s[|s| - 1].seqNo) then [] else [s[|s| - 1]]
  {
  }

  // ---- Deduplication is exact exactly when a batch does not repeat itself ----

  ghost predicate DistinctSeqs(s: seq<WriteEvent>) {
    forall i, j :: 0 <= i < j < |s| ==> s[i].seqNo != s[j].seqNo
  }

  lemma {:induction false} WithSeqMember(s: seq<WriteEvent>, q: nat)
    ensures WithSeq(s, q) != [] <==> HasSeq(s, q)
  {
    if s != [] {
      WithSeqMember(s[..|s| - 1], q);
      assert forall e :: e in s <==> e in s[..|s| - 1] || e == s[|s| - 1];
    }
  }

  ghost predicate AtMostOnce(s: seq<WriteEvent>) { forall q: nat :: |WithSeq(s, q)| <= 1 }

  lemma {:induction false} DistinctIffOnce(s: seq<WriteEvent>)
    ensures DistinctSeqs(s) <==> AtMostOnce(s)
  {
    if s != [] {
      var front, last := s[..|s| - 1], s[|s| - 1];
      DistinctIffOnce(front);
      WithSeqMember(front, last.seqNo);
      if DistinctSeqs(s) {
        forall e | e in front ensures e.seqNo != last.seqNo {
          var i :| 0 <= i < |front| && front[i] == e;
          assert s[i].seqNo != s[|s| - 1].seqNo;
        }
        assert DistinctSeqs(front) && AtMostOnce(front);
        forall q: nat ensures |WithSeq(s, q)| <= 1 {
          assert |WithSeq(front, q)| <= 1;
        }
      }
      if AtMostOnce(s) {
        forall q: nat ensures |WithSeq(front, q)| <= 1 {
          assert |WithSeq(s, q)| <= 1;
        }
        assert |WithSeq(s, last.seqNo)| <= 1;
        assert !HasSeq(front, last.seqNo);
        forall i | 0 <= i < |front| ensures s[i].seqNo != last.seqNo {
          assert front[i] in front;
        }
      }
    }
  }

  lemma SortDistinct(s: seq<WriteEvent>)
    ensures DistinctSeqs(Sort(s)) <==> DistinctSeqs(s)
  {
    hide Sort, WithSeq, DistinctSeqs;
    DistinctIffOnce(s);
    DistinctIffOnce(Sort(s));
    forall q: nat ensures WithSeq(Sort(s), q) == WithSeq(s, q) {
      SortStable(s, q);
    }
  }

  lemma StrictIffDistinct(s: seq<WriteEvent>)
    requires Sorted(s)
    ensures StrictlySorted(s) <==> DistinctSeqs(s)
  {
  }

  /** A log without repeated sequence numbers stays so exactly when the part of the batch that is
      not yet stored does not repeat one: stored numbers are screened, the batch itself is not. */
  lemma DedupExact(log: seq<WriteEvent>, added: seq<WriteEvent>)
    requires StrictlySorted(log)
    ensures StrictlySorted(Appended(log, added)) <==> DistinctSeqs(Unseen(log, added))
  {
    hide Sort, Unseen;
    var u := Unseen(log, added);
    SortSorts(log + u);
    StrictIffDistinct(Appended(log, added));
    SortDistinct(log + u);
    forall i, j | 0 <= i < |log| && 0 <= j < |u| ensures log[i].seqNo != u[j].seqNo {
      assert u[j] in u && log[i] in log;
    }
    forall i, j | 0 <= i < j < |u| ensures u[i] == (log + u)[|log| + i] && u[j] == (log + u)[|log| + j] {}
  }

  lemma PairForRun(e: WriteEvent)
    ensures ForRun([e, e], e.runId) == [e, e]
  {
    assert [e, e][..1] == [e] && [e][..0] == [];
    assert ForRun([e], e.runId) == [] + [e];
  }

  lemma PairUnseen(e: WriteEvent)
    ensures Unseen([], [e, e]) == [e, e]
  {
    assert [e, e][..1] == [e] && [e][..0] == [];
    assert Unseen([], [e]) == [] + [e];
  }

  lemma PairAppended(e: WriteEvent)
    ensures Appended([], [e, e]) == [e, e]
  {
    hide Unseen, Sort;
    PairUnseen(e);
    SortPair(e);
  }

  lemma SortPair(e: WriteEvent)
    ensures Sort([] + [e, e]) == [e, e]
  {
  }

  lemma TouchedRun(logs: Logs, batch: seq<WriteEvent>, r: RunId)
    requires ForRun(batch, r) != []
    ensures LogOf(MemWrite(logs, batch), r) == Appended(LogOf(logs, r), ForRun(batch, r))
  {
  }

  /** A file whose run has every number of a batch already is left as it is; otherwise it holds its
      events in order, then the unseen ones. */
  lemma FileKept(content: seq<WriteEvent>, added: seq<WriteEvent>)
    ensures (forall e :: e in added ==> HasSeq(content, e.seqNo)) ==> FileContent(content, added) == content
    ensures (exists e :: e in added && !HasSeq(content, e.seqNo)) ==>
      FileContent(content, added) == Sort(content) + Unseen(content, added)
  {
    hide Sort;
    SortSorts(content);
    assert forall q :: HasSeq(Sort(content), q) <==> HasSeq(content, q);
    UnseenSame(Sort(content), content, added);
    hide Unseen;
  }

  lemma {:induction false} UnseenSame(log: seq<WriteEvent>, log': seq<WriteEvent>, added: seq<WriteEvent>)
    requires forall q :: HasSeq(log, q) <==> HasSeq(log', q)
    ensures Unseen(log, added) == Unseen(log', added)
  {
    if added != [] {
      UnseenSame(log, log', added[..|added| - 1]);
    }
  }

  /** The promise "deduplicated on (run, seq)" fails for a batch that holds an event twice. */
  lemma RepeatedWithinBatch(e: WriteEvent)
    ensures LogOf(MemWrite(map[], [e, e]), e.runId) == [e, e]
    ensures !StrictlySorted([e, e])
  {
    PairForRun(e);
    PairAppended(e);
    TouchedRun(map[], [e, e], e.runId);
    assert [e, e][0].seqNo == [e, e][1].seqNo;
    hide ForRun, Appended, MemWrite, RunIds;
  }

  // ---- Confluence ----

  ghost predicate InBatches(batches: seq<seq<WriteEvent>>, e: WriteEvent) {
    exists i :: 0 <= i < |batches| && e in batches[i]
  }

  /** A key determines its event. */
  ghost predicate KeysDetermine(batches: seq<seq<WriteEvent>>) {
    forall e, e' :: InBatches(batches, e) && InBatches(batches, e') && KeyOf(e) == KeyOf(e') ==> e == e'
  }

  ghost predicate NoRepeats(batch: seq<WriteEvent>) {
    forall i, j :: 0 <= i < j < |batch| ==> KeyOf(batch[i]) != KeyOf(batch[j])
  }

  /** A log that is the sorted set of a run's events. */
  ghost predicate SortedSet(log: seq<WriteEvent>, batches: seq<seq<WriteEvent>>, r: RunId) {
    StrictlySorted(log) && forall e :: e in log <==> InBatches(batches, e) && e.runId == r
  }

  lemma {:induction false} ForRunDistinct(batch: seq<WriteEvent>, r: RunId)
    requires NoRepeats(batch)
    ensures DistinctSeqs(ForRun(batch, r))
  {
    if batch != [] {
      var front, last := batch[..|batch| - 1], batch[|batch| - 1];
      ForRunDistinct(front, r);
      if last.runId == r {
        forall e | e in ForRun(front, r) ensures e.seqNo != last.seqNo {
          var i :| 0 <= i < |front| && front[i] == e;
          assert KeyOf(batch[i]) != KeyOf(batch[|batch| - 1]);
        }
      }
    }
  }

  lemma {:induction false} UnseenDistinct(log: seq<WriteEvent>, added: seq<WriteEvent>)
    requires DistinctSeqs(added)
    ensures DistinctSeqs(Unseen(log, added))
  {
    if added != [] {
      var front, last := added[..|added| - 1], added[|added| - 1];
      UnseenDistinct(log, front);
      forall e | e in Unseen(log, front) ensures e.seqNo != last.seqNo {
        assert e in front;
      }
    }
  }

  lemma AppendedContents(log: seq<WriteEvent>, added: seq<WriteEvent>, x: WriteEvent)
    ensures x in Appended(log, added) <==> x in log || (x in added && !HasSeq(log, x.seqNo))
  {
    hide Sort, Unseen;
    SortSorts(log + Unseen(log, added));
  }

  lemma OneMoreBatch(log: seq<WriteEvent>, before: seq<seq<WriteEvent>>, batch: seq<WriteEvent>, r: RunId)
    requires SortedSet(log, before, r) && KeysDetermine(before + [batch]) && NoRepeats(batch)
    ensures SortedSet(Appended(log, ForRun(batch, r)), before + [batch], r)
  {
    hide Sort, Unseen, Appended, ForRun;
    var all, added := before + [batch], ForRun(batch, r);
    ForRunDistinct(batch, r);
    UnseenDistinct(log, added);
    DedupExact(log, added);
    forall e ensures InBatches(all, e) <==> InBatches(before, e) || e in batch {
      if InBatches(before, e) {
        var i :| 0 <= i < |before| && e in before[i];
        assert all[i] == before[i];
      }
      assert all[|before|] == batch;
    }
    forall e ensures e in Appended(log, added) <==> InBatches(all, e) && e.runId == r {
      AppendedContents(log, added, e);
      if e in added && HasSeq(log, e.seqNo) {
        var e' :| e' in log && e'.seqNo == e.seqNo;
        assert KeyOf(e) == KeyOf(e');
      }
    }
  }

  /** The stored log is the sorted set of what was written, however it was batched. */
  lemma {:induction false} LogIsSortedSet(batches: seq<seq<WriteEvent>>, r: RunId)
    requires KeysDetermine(batches) && forall i :: 0 <= i < |batches| ==> NoRepeats(batches[i])
    ensures SortedSet(LogOf(MemWriteAll(map[], batches), r), batches, r)
  {
    hide NoRepeats, SortedSet, Appended, ForRun, RunIds;
    if batches == [] {
      NoEvents(r);
    } else {
      var before, batch := batches[..|batches| - 1], batches[|batches| - 1];
      assert batches == before + [batch];
      KeysDeterminePrefix(before, batch);
      LogIsSortedSet(before, r);
      var log := LogOf(MemWriteAll(map[], before), r);
      OneMoreBatch(log, before, batch, r);
      if r !in RunIds(batch) {
        UntouchedRun(log, batch, r);
        SortedSetLog(log, before, r);
      }
    }
  }

  lemma NoEvents(r: RunId)
    ensures SortedSet([], [], r)
  {
  }

  lemma KeysDeterminePrefix(before: seq<seq<WriteEvent>>, batch: seq<WriteEvent>)
    requires KeysDetermine(before + [batch])
    ensures KeysDetermine(before)
  {
    forall e | InBatches(before, e) ensures InBatches(before + [batch], e) {
      var i :| 0 <= i < |before| && e in before[i];
      assert (before + [batch])[i] == before[i];
    }
  }

  lemma SortedSetLog(log: seq<WriteEvent>, batches: seq<seq<WriteEvent>>, r: RunId)
    requires SortedSet(log, batches, r)
    ensures Sorted(log)
  {
  }

  lemma UntouchedRun(log: seq<WriteEvent>, batch: seq<WriteEvent>, r: RunId)
    requires r !in RunIds(batch)
    ensures Sorted(log) ==> Appended(log, ForRun(batch, r)) == log
  {
    assert ForRun(batch, r) == [] && log + Unseen(log, []) == log;
    if Sorted(log) {
      SortOfSorted(log);
    }
  }

  /** Any splitting, reordering and repetition of batches that writes the same events stores the
      same logs, and the same record of every run. */
  lemma LogConfluence(batches: seq<seq<WriteEvent>>, batches': seq<seq<WriteEvent>>, r: RunId)
    requires KeysDetermine(batches) && forall i :: 0 <= i < |batches| ==> NoRepeats(batches[i])
    requires KeysDetermine(batches') && forall i :: 0 <= i < |batches'| ==> NoRepeats(batches'[i])
    requires forall e :: InBatches(batches, e) <==> InBatches(batches', e)
    ensures var log, log' := LogOf(MemWriteAll(map[], batches), r), LogOf(MemWriteAll(map[], batches'), r);
      log == log' && Reconstruct(r, log) == Reconstruct(r, log')
  {
    hide MemWriteAll, Reconstruct, NoRepeats, InBatches, KeysDetermine;
    LogIsSortedSet(batches, r);
    LogIsSortedSet(batches', r);
    StrictlySortedUnique(LogOf(MemWriteAll(map[], batches), r), LogOf(MemWriteAll(map[], batches'), r));
  }

  // ---- Crash recovery ----

  /** The sequence number of the synthetic completion written by crash recovery: the largest u64. */
  const MAX_SEQ: nat := 0xFFFF_FFFF_FFFF_FFFF

  function InterruptedEvent(r: RunId, now: int): WriteEvent {
    RunCompleted(r, MAX_SEQ, Interrupted, 0, None, now)
  }

  function StatusOf(logs: Logs, r: RunId): RunStatus { Reconstruct(r, LogOf(logs, r)).status }

  /** Ordinary events have smaller numbers: only recovery markers carry the largest. */
  ghost predicate OrdinaryBelowMax(log: seq<WriteEvent>) {
    forall e :: e in log ==> e.seqNo <= MAX_SEQ && (e.seqNo == MAX_SEQ ==> e.RunCompleted? && e.status == Interrupted)
  }

  ghost predicate Healthy(logs: Logs) {
    forall r :: Sorted(LogOf(logs, r)) && OrdinaryBelowMax(LogOf(logs, r))
  }

  /** A marker in a run's log decides its status: it sorts last. */
  lemma MarkerDecides(log: seq<WriteEvent>, r: RunId)
    requires Sorted(log) && OrdinaryBelowMax(log) && HasSeq(log, MAX_SEQ)
    ensures Reconstruct(r, log).status == Interrupted
  {
    var e :| e in log && e.seqNo == MAX_SEQ;
    var i :| 0 <= i < |log| && log[i] == e;
    var last := log[|log| - 1];
    assert last in log && last.seqNo == MAX_SEQ by {
      if i < |log| - 1 {
        assert log[i].seqNo <= last.seqNo;
      }
    }
  }

  /** Writing ordinary or marker events keeps logs healthy and never removes a marker. */
  lemma WriteKeepsHealthy(logs: Logs, batch: seq<WriteEvent>)
    requires Healthy(logs) && OrdinaryBelowMax(batch)
    ensures var logs' := MemWrite(logs, batch);
      Healthy(logs') && forall r :: HasSeq(LogOf(logs, r), MAX_SEQ) ==> HasSeq(LogOf(logs', r), MAX_SEQ)
  {
    hide Sort, ForRun, Unseen;
    var logs' := MemWrite(logs, batch);
    forall r
      ensures Sorted(LogOf(logs', r)) && OrdinaryBelowMax(LogOf(logs', r))
      ensures HasSeq(LogOf(logs, r), MAX_SEQ) ==> HasSeq(LogOf(logs', r), MAX_SEQ)
    {
      var log, added := LogOf(logs, r), ForRun(batch, r);
      SortSorts(log + Unseen(log, added));
      assert Sorted(log) && OrdinaryBelowMax(log);
    }
  }

  /** No later ordinary batch revives a run that recovery has marked. */
  lemma InterruptedIsSticky(logs: Logs, batches: seq<seq<WriteEvent>>, r: RunId)
    requires Healthy(logs) && HasSeq(LogOf(logs, r), MAX_SEQ)
    requires forall i :: 0 <= i < |batches| ==> OrdinaryBelowMax(batches[i])
    ensures StatusOf(MemWriteAll(logs, batches), r) == Interrupted
  {
    MarkerStays(logs, batches, r);
    MarkerDecides(LogOf(MemWriteAll(logs, batches), r), r);
  }

  lemma {:induction false} MarkerStays(logs: Logs, batches: seq<seq<WriteEvent>>, r: RunId)
    requires Healthy(logs) && HasSeq(LogOf(logs, r), MAX_SEQ)
    requires forall i :: 0 <= i < |batches| ==> OrdinaryBelowMax(batches[i])
    ensures var logs' := MemWriteAll(logs, batches); Healthy(logs') && HasSeq(LogOf(logs', r), MAX_SEQ)
  {
    hide Healthy, OrdinaryBelowMax, MemWrite, HasSeq;
    if batches != [] {
      var front := batches[..|batches| - 1];
      MarkerStays(logs, front, r);
      WriteKeepsHealthy(MemWriteAll(logs, front), batches[|batches| - 1]);
    }
  }

  lemma MarkLogs(logs: Logs, r: RunId, e: WriteEvent)
    requires e.runId == r
    ensures var logs' := MemWrite(logs, [e]);
      && LogOf(logs', r) == Appended(LogOf(logs, r), [e])
      && (forall x :: x != r ==> LogOf(logs', x) == LogOf(logs, x))
      && logs'.Keys == logs.Keys + {r}
  {
    hide Appended, MemWrite, RunIds, ForRun;
    forall x ensures ForRun([e], x) == if x == r then [e] else [] {
      OneForRun(e, x);
    }
    assert RunIds([e]) == {r};
  }

  lemma OneForRun(e: WriteEvent, r: RunId)
    ensures ForRun([e], r) == if e.runId == r then [e] else []
  {
    assert [e][..0] == [];
  }

  /** Marking a run: it carries the marker, is Interrupted, and every other run is as before. */
  lemma MarkEffect(logs: Logs, r: RunId, now: int)
    requires Healthy(logs) && StatusOf(logs, r) == Running
    ensures var logs' := MemWrite(logs, [InterruptedEvent(r, now)]);
      && Healthy(logs') && StatusOf(logs', r) == Interrupted && HasSeq(LogOf(logs', r), MAX_SEQ)
      && EndsMarked(LogOf(logs, r), LogOf(logs', r), r, now)
      && (forall x :: x != r ==> LogOf(logs', x) == LogOf(logs, x))
      && logs'.Keys == logs.Keys + {r}
  {
    hide Reconstruct, Appended, MemWrite;
    var e := InterruptedEvent(r, now);
    WriteKeepsHealthy(logs, [e]);
    MarkLogs(logs, r, e);
    var log, log' := LogOf(logs, r), LogOf(MemWrite(logs, [e]), r);
    if HasSeq(log, MAX_SEQ) {
      MarkerDecides(log, r);
    } else {
      MarkerAppended(log, e);
      assert log'[|log'| - 1] == e;
      MarkerDecides(log', r);
    }
  }

  /** `log'` is `log` with the completion recovery writes: interrupted, of no duration, without a
      summary, numbered 2^64 - 1. */
  ghost predicate EndsMarked(log: seq<WriteEvent>, log': seq<WriteEvent>, r: RunId, now: int) {
    log' == log + [RunCompleted(r, 18446744073709551615, Interrupted, 0, None, now)]
  }

  lemma MarkerAppended(log: seq<WriteEvent>, e: WriteEvent)
    requires Sorted(log) && OrdinaryBelowMax(log) && !HasSeq(log, MAX_SEQ) && e.seqNo == MAX_SEQ
    ensures Appended(log, [e]) == log + [e]
  {
    hide Sort;
    assert [e][..0] == [] && Unseen(log, [e]) == [e];
    assert Sorted(log + [e]) by {
      forall i | 0 <= i < |log| ensures log[i].seqNo <= e.seqNo {
        assert log[i] in log;
      }
    }
    SortOfSorted(log + [e]);
  }

  /** list_runs with a status filter, over the cached records. */
  method ListRunning(store: InMemoryRunStore) returns (page: set<RunId>)
    requires store.Valid()
    ensures forall r :: r in page <==> r in store.events && StatusOf(store.events, r) == Running
  {
    hide Reconstruct;
    page := set r | r in store.runs && store.runs[r].status == Running;
  }

  /** The recovery pass: afterwards no run is Running, runs that were Running are Interrupted by
      a marker, and all other runs are untouched (so a second pass has nothing to do). */
  method RecoverInterrupted(store: InMemoryRunStore, now: int)
    requires store.Valid() && Healthy(store.events)
    modifies store
    ensures store.Valid() && Healthy(store.events) && store.events.Keys == old(store.events).Keys
    ensures forall r :: StatusOf(store.events, r) != Running
    ensures forall r :: StatusOf(old(store.events), r) == Running ==>
      Marked(store.events, r) && EndsMarked(LogOf(old(store.events), r), LogOf(store.events, r), r, now)
    ensures forall r :: StatusOf(old(store.events), r) != Running ==>
      LogOf(store.events, r) == LogOf(old(store.events), r)
  {
    hide Reconstruct, CacheAgrees, MemRuns, Healthy, Recovering, EndsMarked;
    var todo := ListRunning(store);
    StartRecovering(store.events, todo, now);
    while todo != {}
      invariant store.Valid() && Healthy(store.events)
      invariant Recovering(old(store.events), store.events, todo, now)
    {
      var r :| r in todo;
      MarkStep(old(store.events), store.events, todo, r, now);
      store.WriteBatch([InterruptedEvent(r, now)]);
      todo := todo - {r};
    }
    EndRecovering(old(store.events), store.events, now);
  }

  /** A run interrupted by a marker in its log. */
  ghost predicate Marked(logs: Logs, r: RunId) { StatusOf(logs, r) == Interrupted && HasSeq(LogOf(logs, r), MAX_SEQ) }

  /** Part way through: the runs in `todo` are still Running, the other Running ones are marked. */
  ghost predicate Recovering(logs0: Logs, logs: Logs, todo: set<RunId>, now: int) {
    && logs.Keys == logs0.Keys && todo <= logs.Keys
    && (forall r :: r in todo <==> StatusOf(logs, r) == Running)
    && (forall r :: StatusOf(logs0, r) == Running && r !in todo ==>
          Marked(logs, r) && EndsMarked(LogOf(logs0, r), LogOf(logs, r), r, now))
    && (forall r :: StatusOf(logs0, r) != Running || r in todo ==> LogOf(logs, r) == LogOf(logs0, r))
  }

  lemma StartRecovering(logs: Logs, todo: set<RunId>, now: int)
    requires forall r :: r in todo <==> r in logs && StatusOf(logs, r) == Running
    ensures Recovering(logs, logs, todo, now)
  {
  }

  lemma MarkStep(logs0: Logs, logs: Logs, todo: set<RunId>, r: RunId, now: int)
    requires Healthy(logs) && Recovering(logs0, logs, todo, now) && r in todo
    ensures var logs' := MemWrite(logs, [InterruptedEvent(r, now)]);
      Healthy(logs') && Recovering(logs0, logs', todo - {r}, now)
  {
    hide Reconstruct, MemWrite, Healthy, Recovering, EndsMarked;
    StillRunning(logs0, logs, todo, r, now);
    MarkEffect(logs, r, now);
    OneMoreMarked(logs0, logs, MemWrite(logs, [InterruptedEvent(r, now)]), todo, r, now);
  }

  lemma OneMoreMarked(logs0: Logs, logs: Logs, logs': Logs, todo: set<RunId>, r: RunId, now: int)
    requires Recovering(logs0, logs, todo, now) && r in todo && StatusOf(logs0, r) == Running
    requires logs'.Keys == logs.Keys + {r} && Marked(logs', r)
    requires EndsMarked(LogOf(logs, r), LogOf(logs', r), r, now)
    requires forall x :: x != r ==> LogOf(logs', x) == LogOf(logs, x)
    ensures Recovering(logs0, logs', todo - {r}, now)
  {
    hide EndsMarked, Reconstruct;
  }

  lemma StillRunning(logs0: Logs, logs: Logs, todo: set<RunId>, r: RunId, now: int)
    requires Recovering(logs0, logs, todo, now) && r in todo
    ensures StatusOf(logs0, r) == Running && StatusOf(logs, r) == Running
  {
  }

  lemma EndRecovering(logs0: Logs, logs: Logs, now: int)
    requires Recovering(logs0, logs, {}, now)
    ensures logs.Keys == logs0.Keys
    ensures forall r :: StatusOf(logs, r) != Running
    ensures forall r :: StatusOf(logs0, r) == Running ==>
      Marked(logs, r) && EndsMarked(LogOf(logs0, r), LogOf(logs, r), r, now)
    ensures forall r :: StatusOf(logs0, r) != Running ==> LogOf(logs, r) == LogOf(logs0, r)
  {
  }

  /** Recovery is for good: whatever ordinary batches follow the pass, every run it found Running
      is Interrupted. */
  method RecoverThenWrite(store: InMemoryRunStore, now: int, batches: seq<seq<WriteEvent>>)
    requires store.Valid() && Healthy(store.events)
    requires forall i :: 0 <= i < |batches| ==> OrdinaryBelowMax(batches[i])
    modifies store
    ensures store.Valid() && Healthy(store.events)
    ensures forall r :: StatusOf(old(store.events), r) == Running ==> StatusOf(store.events, r) == Interrupted
  {
    hide Reconstruct, CacheAgrees, MemRuns, Healthy, MemWrite, OrdinaryBelowMax, HasSeq;
    RecoverInterrupted(store, now);
    ghost var recovered := store.events;
    for i := 0 to |batches|
      invariant store.Valid() && Healthy(store.events)
      invariant store.events == MemWriteAll(recovered, batches[..i])
    {
      assert batches[..i + 1][..i] == batches[..i];
      WriteKeepsHealthy(store.events, batches[i]);
      store.WriteBatch(batches[i]);
    }
    assert batches[..|batches|] == batches;
    forall r | StatusOf(old(store.events), r) == Running ensures StatusOf(store.events, r) == Interrupted {
      assert Marked(recovered, r);
      InterruptedIsSticky(recovered, batches, r);
    }
  }
}
