/** The two run stores over one event log per run, and what their logs contain. */
module Store {
  import opened Common
  import opened Events

  type Logs = map<RunId, seq<WriteEvent>>

  function LogOf(logs: Logs, r: RunId): seq<WriteEvent> { if r in logs then logs[r] else [] }

  /** The events of one run within a batch, in batch order. */
  function ForRun(batch: seq<WriteEvent>, r: RunId): (x: seq<WriteEvent>)
    ensures forall e :: e in x <==> e in batch && e.runId == r
  {
    if batch == [] then []
    else
      var rest, last := ForRun(batch[..|batch| - 1], r), batch[|batch| - 1];
      assert forall e :: e in batch <==> e in batch[..|batch| - 1] || e == last;
      if last.runId == r then rest + [last] else rest
  }

  predicate HasSeq(log: seq<WriteEvent>, q: nat) { exists e :: e in log && e.seqNo == q }

  /** What of the new events is not yet stored, judged by sequence number before any is added. */
  function Unseen(log: seq<WriteEvent>, added: seq<WriteEvent>): (x: seq<WriteEvent>)
    ensures forall e :: e in x <==> e in added && !HasSeq(log, e.seqNo)
  {
    if added == [] then []
    else
      var rest, last := Unseen(log, added[..|added| - 1]), added[|added| - 1];
      assert forall e :: e in added <==> e in added[..|added| - 1] || e == last;
      if HasSeq(log, last.seqNo) then rest else rest + [last]
  }

  /** One run's log after a batch: the unseen events appended, then sorted. */
  function Appended(log: seq<WriteEvent>, added: seq<WriteEvent>): seq<WriteEvent> {
    Sort(log + Unseen(log, added))
  }

  function RunIds(batch: seq<WriteEvent>): (r: set<RunId>)
    ensures forall x :: x in r <==> ForRun(batch, x) != []
  {
    RunIdsOf(batch);
    set e | e in batch :: e.runId
  }

  lemma RunIdsOf(batch: seq<WriteEvent>)
    ensures forall x :: x in (set e | e in batch :: e.runId) <==> ForRun(batch, x) != []
  {
    forall x ensures x in (set e | e in batch :: e.runId) <==> ForRun(batch, x) != [] {
      if ForRun(batch, x) != [] {
        var e := ForRun(batch, x)[0];
        assert e in ForRun(batch, x);
      }
    }
  }

  // ---- In-memory store ----

  /** A run the batch touches gets its unseen events; any other is left alone. */
  function LogAfter(logs: Logs, batch: seq<WriteEvent>, r: RunId): seq<WriteEvent> {
    if r in RunIds(batch) then Appended(LogOf(logs, r), ForRun(batch, r)) else LogOf(logs, r)
  }

  function MemWrite(logs: Logs, batch: seq<WriteEvent>): (r: Logs)
    ensures r.Keys == logs.Keys + RunIds(batch)
    ensures forall x :: LogOf(r, x) == LogAfter(logs, batch, x)
  {
    map x | x in logs.Keys + RunIds(batch) :: LogAfter(logs, batch, x)
  }

  function MemRuns(runs: map<RunId, RunRecord>, logs: Logs, batch: seq<WriteEvent>): map<RunId, RunRecord> {
    map x | x in runs.Keys + RunIds(batch) :: if x in RunIds(batch) then Reconstruct(x, LogOf(logs, x)) else runs[x]
  }

  /** The record of a run; a run without events has none. */
  function RecordOf(r: RunId, log: seq<WriteEvent>): Option<RunRecord> {
    if log == [] then None else Some(Reconstruct(r, log))
  }

  /** The cache of records agrees with the logs. */
  ghost predicate CacheAgrees(logs: Logs, runs: map<RunId, RunRecord>) {
    && runs.Keys == logs.Keys
    && (forall r :: r in logs ==> logs[r] != [] && Sorted(logs[r]) && runs[r] == Reconstruct(r, logs[r]))
  }

  lemma WriteKeepsCache(logs: Logs, runs: map<RunId, RunRecord>, batch: seq<WriteEvent>)
    requires CacheAgrees(logs, runs)
    ensures var logs' := MemWrite(logs, batch); CacheAgrees(logs', MemRuns(runs, logs', batch))
  {
    hide Reconstruct, ForRun, Appended, Sorted, RunIds;
    var logs' := MemWrite(logs, batch);
    forall r | r in logs' ensures logs'[r] != [] && Sorted(logs'[r]) {
      assert logs'[r] == LogOf(logs', r);
      if r in RunIds(batch) {
        AppendedSorted(LogOf(logs, r), ForRun(batch, r));
      }
    }
  }

  lemma AppendedSorted(log: seq<WriteEvent>, added: seq<WriteEvent>)
    requires added != []
    ensures Sorted(Appended(log, added)) && Appended(log, added) != []
  {
    hide Sort, Unseen, Sorted;
    SortSorts(log + Unseen(log, added));
    if log == [] {
      assert added[0] in added && !HasSeq(log, added[0].seqNo);
      assert added[0] in Unseen(log, added);
    }
  }

  /** Part way through a batch: the runs in `done` are written, the others are as before. */
  ghost predicate WrittenLogs(logs: Logs, batch: seq<WriteEvent>, done: set<RunId>, logs': Logs) {
    && logs'.Keys == logs.Keys + done
    && forall r :: r in logs' ==> logs'[r] == if r in done then Appended(LogOf(logs, r), ForRun(batch, r)) else logs[r]
  }

  ghost predicate WrittenRuns(runs: map<RunId, RunRecord>, logs': Logs, done: set<RunId>,
                              runs': map<RunId, RunRecord>) {
    && runs'.Keys == runs.Keys + done
    && forall r :: r in runs' ==> runs'[r] == if r in done then Reconstruct(r, LogOf(logs', r)) else runs[r]
  }

  lemma NothingWritten(logs: Logs, runs: map<RunId, RunRecord>, batch: seq<WriteEvent>)
    ensures WrittenLogs(logs, batch, {}, logs) && WrittenRuns(runs, logs, {}, runs)
  {
  }

  lemma OneMoreLog(logs: Logs, batch: seq<WriteEvent>, done: set<RunId>, logs': Logs, r: RunId)
    requires WrittenLogs(logs, batch, done, logs') && r !in done
    ensures LogOf(logs', r) == LogOf(logs, r)
    ensures WrittenLogs(logs, batch, done + {r}, logs'[r := Appended(LogOf(logs', r), ForRun(batch, r))])
  {
  }

  lemma OneMoreRun(runs: map<RunId, RunRecord>, logs': Logs, done: set<RunId>, runs': map<RunId, RunRecord>, r: RunId,
                   log: seq<WriteEvent>)
    requires WrittenRuns(runs, logs', done, runs') && r !in done
    ensures WrittenRuns(runs, logs'[r := log], done + {r}, runs'[r := Reconstruct(r, log)])
  {
  }

  lemma AllWritten(logs: Logs, runs: map<RunId, RunRecord>, batch: seq<WriteEvent>, logs': Logs,
                   runs': map<RunId, RunRecord>)
    requires WrittenLogs(logs, batch, RunIds(batch), logs') && WrittenRuns(runs, logs', RunIds(batch), runs')
    ensures logs' == MemWrite(logs, batch) && runs' == MemRuns(runs, logs', batch)
  {
    hide Appended, Reconstruct, ForRun, RunIds;
    var target := MemWrite(logs, batch);
    forall r | r in logs' ensures logs'[r] == target[r] {
      assert target[r] == LogOf(target, r);
    }
  }

  class InMemoryRunStore {
    var events: Logs
    var runs: map<RunId, RunRecord>

    ghost predicate Valid()
      reads this
    {
      CacheAgrees(events, runs)
    }

    constructor ()
      ensures Valid() && events == map[]
    {
      events, runs := map[], map[];
    }

    /** One run of a batch: append what is unseen, sort, refresh the cached record. */
    method WriteRun(r: RunId, batch: seq<WriteEvent>)
      modifies this
      ensures events == old(events)[r := Appended(LogOf(old(events), r), batch)]
      ensures runs == old(runs)[r := Reconstruct(r, Appended(LogOf(old(events), r), batch))]
    {
      hide Sort, Reconstruct;
      var stored := LogOf(events, r);
      stored := Sort(stored + Unseen(stored, batch));
      events := events[r := stored];
      var record := ReconstructRun(r, stored);
      runs := runs[r := record];
    }

    /** Deduplicate against what is stored, append, sort, and refresh the cached records. */
    method WriteBatch(newEvents: seq<WriteEvent>)
      requires Valid()
      modifies this
      ensures Valid()
      ensures events == MemWrite(old(events), newEvents)
      ensures runs == MemRuns(old(runs), events, newEvents)
    {
      hide CacheAgrees, WrittenLogs, WrittenRuns, MemWrite, MemRuns, Appended, Reconstruct, RunIds, ForRun;
      WriteKeepsCache(events, runs, newEvents);
      var byRun := GroupByRun(newEvents);
      var done: set<RunId> := {};
      assert WrittenLogs(events, newEvents, done, events) && WrittenRuns(runs, events, done, runs) by {
        NothingWritten(events, runs, newEvents);
      }
      while byRun.Keys - done != {}
        invariant done <= byRun.Keys
        invariant WrittenLogs(old(events), newEvents, done, events) && WrittenRuns(old(runs), events, done, runs)
        decreases byRun.Keys - done
      {
        var r :| r in byRun.Keys - done;
        OneMoreLog(old(events), newEvents, done, events, r);
        OneMoreRun(old(runs), events, done, runs, r, Appended(LogOf(events, r), ForRun(newEvents, r)));
        WriteRun(r, byRun[r]);
        done := done + {r};
      }
      assert done == byRun.Keys by { assert byRun.Keys == (byRun.Keys - done) + done; }
      AllWritten(old(events), old(runs), newEvents, events, runs);
    }

    method GetRun(r: RunId) returns (record: Option<RunRecord>)
      requires Valid()
      ensures record == RecordOf(r, LogOf(events, r))
      ensures record.Some? <==> LogOf(events, r) != []
      ensures record.Some? ==> Describes(record.value, r, LogOf(events, r))
    {
      hide Describes, Reconstruct, Sorted;
      ReconstructDescribes(r, LogOf(events, r));
      record := if r in runs then Some(runs[r]) else None;
    }
  }

  method GroupByRun(batch: seq<WriteEvent>) returns (byRun: map<RunId, seq<WriteEvent>>)
    ensures byRun.Keys == RunIds(batch) && forall r :: r in byRun ==> byRun[r] == ForRun(batch, r)
  {
    byRun := map[];
    for i := 0 to |batch|
      invariant forall r :: LogOf(byRun, r) == ForRun(batch[..i], r)
      invariant forall r :: r in byRun ==> byRun[r] != []
    {
      var e := batch[i];
      assert batch[..i + 1][..i] == batch[..i];
      byRun := byRun[e.runId := LogOf(byRun, e.runId) + [e]];
    }
    assert batch[..|batch|] == batch;
    forall r ensures r in byRun <==> r in RunIds(batch) {
      assert LogOf(byRun, r) == ForRun(batch, r);
    }
  }

  // ---- File store ----

  /** Reading a run back: the lines of its file, sorted. */
  function ReadEvents(files: Logs, r: RunId): seq<WriteEvent> { Sort(LogOf(files, r)) }

  /** A file is replaced by what it held, sorted, plus the unseen events; or left alone. */
  function FileContent(content: seq<WriteEvent>, added: seq<WriteEvent>): seq<WriteEvent> {
    var existing := Sort(content);
    var deduped := Unseen(existing, added);
    if deduped == [] then content else existing + deduped
  }

  /** The file of a run part way through a batch, the runs in `todo` still waiting. */
  function FileAfter(files: Logs, batch: seq<WriteEvent>, todo: set<RunId>, r: RunId): seq<WriteEvent> {
    if r in RunIds(batch) && r !in todo then FileContent(LogOf(files, r), ForRun(batch, r)) else LogOf(files, r)
  }

  ghost predicate FilesAfter(files: Logs, batch: seq<WriteEvent>, todo: set<RunId>, files': Logs) {
    forall r :: LogOf(files', r) == FileAfter(files, batch, todo, r)
  }

  lemma NoFileWritten(files: Logs, batch: seq<WriteEvent>)
    ensures FilesAfter(files, batch, RunIds(batch), files)
  {
  }

  lemma AllFilesWritten(files: Logs, batch: seq<WriteEvent>, files': Logs)
    requires FilesAfter(files, batch, {}, files')
    ensures forall r :: LogOf(files', r) == FileAfter(files, batch, {}, r)
  {
  }

  lemma OneMoreFile(files0: Logs, batch: seq<WriteEvent>, todo: set<RunId>, files: Logs, files': Logs, r: RunId)
    requires FilesAfter(files0, batch, todo, files) && r in todo && r in RunIds(batch)
    requires LogOf(files', r) == FileContent(LogOf(files, r), ForRun(batch, r))
    requires forall x :: x != r ==> LogOf(files', x) == LogOf(files, x)
    ensures FilesAfter(files0, batch, todo - {r}, files')
  {
    hide FileContent, ForRun, RunIds, LogOf;
  }

  ghost predicate SameLogs(files: Logs, logs: Logs) {
    forall r :: ReadEvents(files, r) == LogOf(logs, r)
  }

  class FileRunStore {
    var files: Logs

    constructor ()
      ensures files == map[]
    {
      files := map[];
    }

    method WriteBatch(newEvents: seq<WriteEvent>)
      modifies this
      ensures forall r :: LogOf(files, r) == FileAfter(old(files), newEvents, {}, r)
    {
      hide Sort, Unseen, ForRun, RunIds, FilesAfter, FileAfter;
      var byRun := GroupByRun(newEvents);
      var todo := byRun.Keys;
      NoFileWritten(files, newEvents);
      while todo != {}
        invariant todo <= byRun.Keys && FilesAfter(old(files), newEvents, todo, files)
      {
        var r :| r in todo;
        ghost var before := files;
        var existing := ReadEvents(files, r);
        var deduped := Unseen(existing, byRun[r]);
        if deduped != [] {
          files := files[r := existing + deduped];
        }
        OneMoreFile(old(files), newEvents, todo, before, files, r);
        todo := todo - {r};
      }
      AllFilesWritten(old(files), newEvents, files);
    }

    method GetRun(r: RunId) returns (record: Option<RunRecord>)
      ensures record == RecordOf(r, ReadEvents(files, r))
      ensures record.Some? <==> ReadEvents(files, r) != []
      ensures record.Some? ==> Describes(record.value, r, ReadEvents(files, r))
    {
      hide Describes, Reconstruct, ReadEvents;
      var events := ReadEvents(files, r);
      if events == [] {
        return None;
      }
      var rec := ReconstructRun(r, events);
      record := Some(rec);
    }
  }

  /** One batch keeps a file store and an in-memory store in step, repeated sequence numbers included. */
  lemma WriteRefines(files: Logs, files': Logs, logs: Logs, batch: seq<WriteEvent>)
    requires SameLogs(files, logs)
    requires forall r :: LogOf(files', r) == FileAfter(files, batch, {}, r)
    ensures SameLogs(files', MemWrite(logs, batch))
  {
    hide Sort, Unseen, ForRun;
    forall r ensures ReadEvents(files', r) == LogOf(MemWrite(logs, batch), r) {
      assert ReadEvents(files, r) == LogOf(logs, r);
      if r in RunIds(batch) {
        FileAppend(LogOf(files, r), ForRun(batch, r));
      }
    }
  }

  lemma FileAppend(content: seq<WriteEvent>, added: seq<WriteEvent>)
    ensures Sort(FileContent(content, added)) == Appended(Sort(content), added)
  {
    hide Sort, Unseen;
    var existing := Sort(content);
    if Unseen(existing, added) == [] {
      assert existing + [] == existing;
      SortSorts(content);
      SortOfSorted(existing);
    }
  }

  /** A client writing the same batches to both stores reads the same logs and records back. */
  method WriteBoth(batches: seq<seq<WriteEvent>>, r: RunId)
    returns (file: FileRunStore, mem: InMemoryRunStore, fromFile: Option<RunRecord>, fromMem: Option<RunRecord>)
    ensures SameLogs(file.files, mem.events) && fromFile == fromMem
    ensures forall r :: LogOf(mem.events, r) == LogOf(MemWriteAll(map[], batches), r)
    ensures mem.Valid()
  {
    file := new FileRunStore();
    mem := new InMemoryRunStore();
    for i := 0 to |batches|
      invariant fresh(file) && fresh(mem) && mem.Valid()
      invariant SameLogs(file.files, mem.events)
      invariant mem.events == MemWriteAll(map[], batches[..i])
    {
      assert batches[..i + 1][..i] == batches[..i];
      ghost var files, logs := file.files, mem.events;
      file.WriteBatch(batches[i]);
      mem.WriteBatch(batches[i]);
      WriteRefines(files, file.files, logs, batches[i]);
    }
    assert batches[..|batches|] == batches;
    fromFile := file.GetRun(r);
    fromMem := mem.GetRun(r);
  }

  function MemWriteAll(logs: Logs, batches: seq<seq<WriteEvent>>): Logs {
    if batches == [] then logs else MemWrite(MemWriteAll(logs, batches[..|batches| - 1]), batches[|batches| - 1])
  }
}
