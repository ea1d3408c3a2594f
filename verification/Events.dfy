/** The execution events, run records, and the stable sort by sequence number. */
module Events {
  import opened Common

  type RunId = string

  datatype WriteEvent =
    | RunStarted(runId: RunId, seqNo: nat, flowId: string, versionId: string, inputs: Json, triggeredBy: string,
                 configHash: Option<string>, parentRunId: Option<RunId>, timestamp: int)
    | RunCompleted(runId: RunId, seqNo: nat, status: RunStatus, durationMs: nat, llmSummary: Option<Json>,
                   timestamp: int)
    | NodeStarted(runId: RunId, seqNo: nat, nodeId: string, inputs: Json, fanOutIndex: Option<nat>, attempt: nat,
                  timestamp: int)
    | NodeCompleted(runId: RunId, seqNo: nat, nodeId: string, outputs: Json, fanOutIndex: Option<nat>,
                    durationMs: nat, timestamp: int)
    | NodeFailed(runId: RunId, seqNo: nat, nodeId: string, error: string, willRetry: bool, attempt: nat, timestamp: int)
    | EdgeEvaluated(runId: RunId, seqNo: nat, edgeId: string, condition: Option<string>, result: bool, data: Json,
                    timestamp: int)
    | Checkpoint(runId: RunId, seqNo: nat, nodeId: string, data: Json, timestamp: int)
    | LlmInvocation(runId: RunId, seqNo: nat, nodeId: string, request: Json, response: Json, timestamp: int)
    | LlmStreamChunk(runId: RunId, seqNo: nat, nodeId: string, data: Json, timestamp: int)
    | ToolInvocation(runId: RunId, seqNo: nat, toolName: string, inputs: Json, outputs: Json, durationMs: nat,
                     timestamp: int)
    | StepRecorded(runId: RunId, seqNo: nat, stepName: string, data: Json, timestamp: int)
    | Custom(runId: RunId, seqNo: nat, node: Option<string>, name: string, data: Json, timestamp: int)
    | TopologyHint(runId: RunId, seqNo: nat, nodes: seq<string>, links: seq<(string, string)>, timestamp: int)
  {
    /** Whether the event must go through the channel that never drops. */
    predicate IsCritical()
      ensures IsCritical() <==> !LlmStreamChunk? && !Custom? && !TopologyHint?
    {
      || RunStarted? || RunCompleted? || NodeStarted? || NodeCompleted? || NodeFailed? || EdgeEvaluated?
      || Checkpoint? || LlmInvocation? || ToolInvocation? || StepRecorded?
    }

    /** The same event with a sequence number assigned. */
    function Numbered(n: nat): (e: WriteEvent)
      ensures e.seqNo == n && e.runId == runId && e.IsCritical() == IsCritical()
    {
      this.(seqNo := n)
    }
  }

  /** What identifies an event in a store. */
  type Key = (RunId, nat)

  function KeyOf(e: WriteEvent): Key { (e.runId, e.seqNo) }

  datatype RunRecord = RunRecord(
    runId: RunId, flowId: string, versionId: string, status: RunStatus, triggeredBy: string,
    configHash: Option<string>, parentRunId: Option<RunId>, llmSummary: Option<Json>,
    startedAt: Option<int>, completedAt: Option<int>, durationMs: Option<nat>, inputs: Json)

  function EmptyRecord(runId: RunId): RunRecord {
    RunRecord(runId, "", "", Pending, "local", None, None, None, None, None, None, Null)
  }

  function ApplyEvent(r: RunRecord, e: WriteEvent): RunRecord {
    match e
    case RunStarted(_, _, flowId, versionId, inputs, triggeredBy, configHash, parentRunId, timestamp) =>
      r.(flowId := flowId, versionId := versionId, inputs := inputs, triggeredBy := triggeredBy,
         configHash := configHash, parentRunId := parentRunId, startedAt := Some(timestamp), status := Running)
    case RunCompleted(_, _, status, durationMs, llmSummary, timestamp) =>
      r.(status := status, durationMs := Some(durationMs), llmSummary := llmSummary, completedAt := Some(timestamp))
    case _ => r
  }

  /** The record of a run is a fold of its log. */
  function Reconstruct(runId: RunId, log: seq<WriteEvent>): RunRecord {
    if log == [] then EmptyRecord(runId) else ApplyEvent(Reconstruct(runId, log[..|log| - 1]), log[|log| - 1])
  }

  method ReconstructRun(runId: RunId, log: seq<WriteEvent>) returns (record: RunRecord)
    ensures record == Reconstruct(runId, log) && Describes(record, runId, log)
  {
    hide ApplyEvent, Describes;
    record := EmptyRecord(runId);
    for i := 0 to |log|
      invariant record == Reconstruct(runId, log[..i])
    {
      assert log[..i + 1][..i] == log[..i];
      record := ApplyEvent(record, log[i]);
    }
    assert log[..|log|] == log;
    ReconstructDescribes(runId, log);
  }

  // ---- What a record says about its log ----

  /** `log[i]` is the last event of the log that starts the run. */
  ghost predicate LastStart(log: seq<WriteEvent>, i: nat) {
    i < |log| && log[i].RunStarted? && forall j :: i < j < |log| ==> !log[j].RunStarted?
  }

  /** `log[i]` is the last event of the log that ends the run. */
  ghost predicate LastEnd(log: seq<WriteEvent>, i: nat) {
    i < |log| && log[i].RunCompleted? && forall j :: i < j < |log| ==> !log[j].RunCompleted?
  }

  /** `log[i]` is the last event of the log that starts or ends the run. */
  ghost predicate LastMark(log: seq<WriteEvent>, i: nat) {
    && i < |log| && (log[i].RunStarted? || log[i].RunCompleted?)
    && forall j :: i < j < |log| ==> !log[j].RunStarted? && !log[j].RunCompleted?
  }

  /** Identity, inputs and start time are those of the last start, or the defaults. */
  ghost predicate DescribesStart(r: RunRecord, log: seq<WriteEvent>) {
    && (forall i: nat :: LastStart(log, i) ==>
          && r.flowId == log[i].flowId && r.versionId == log[i].versionId && r.inputs == log[i].inputs
          && r.triggeredBy == log[i].triggeredBy && r.configHash == log[i].configHash
          && r.parentRunId == log[i].parentRunId && r.startedAt == Some(log[i].timestamp))
    && ((forall e :: e in log ==> !e.RunStarted?) ==>
          && r.flowId == "" && r.versionId == "" && r.inputs == Null && r.triggeredBy == "local"
          && r.configHash == None && r.parentRunId == None && r.startedAt == None)
  }

  /** Duration, summary and completion time are those of the last end, or absent. */
  ghost predicate DescribesEnd(r: RunRecord, log: seq<WriteEvent>) {
    && (forall i: nat :: LastEnd(log, i) ==>
          && r.durationMs == Some(log[i].durationMs) && r.llmSummary == log[i].llmSummary
          && r.completedAt == Some(log[i].timestamp))
    && ((forall e :: e in log ==> !e.RunCompleted?) ==>
          r.durationMs == None && r.llmSummary == None && r.completedAt == None)
  }

  /** The status is Running after a start, the event's own after an end, Pending before both. */
  ghost predicate DescribesStatus(r: RunRecord, log: seq<WriteEvent>) {
    && (forall i: nat :: LastMark(log, i) ==> r.status == if log[i].RunStarted? then Running else log[i].status)
    && ((forall e :: e in log ==> !e.RunStarted? && !e.RunCompleted?) ==> r.status == Pending)
  }

  ghost predicate Describes(r: RunRecord, runId: RunId, log: seq<WriteEvent>) {
    r.runId == runId && DescribesStart(r, log) && DescribesEnd(r, log) && DescribesStatus(r, log)
  }

  /** One more event changes the marks only if it is one. */
  lemma MarksSnoc(front: seq<WriteEvent>, e: WriteEvent, i: nat)
    ensures LastStart(front + [e], i) <==> if e.RunStarted? then i == |front| else LastStart(front, i)
    ensures LastEnd(front + [e], i) <==> if e.RunCompleted? then i == |front| else LastEnd(front, i)
    ensures LastMark(front + [e], i) <==>
            if e.RunStarted? || e.RunCompleted? then i == |front| else LastMark(front, i)
    ensures LastStart(front, i) || LastEnd(front, i) || LastMark(front, i) ==> i < |front|
  {
    var log := front + [e];
    assert log[|front|] == e;
    assert forall j :: 0 <= j < |front| ==> log[j] == front[j];
  }

  lemma MembersSnoc(front: seq<WriteEvent>, e: WriteEvent)
    ensures forall x :: x in front + [e] <==> x in front || x == e
  {
  }

  lemma StartSnoc(r: RunRecord, front: seq<WriteEvent>, e: WriteEvent)
    requires DescribesStart(r, front)
    ensures DescribesStart(ApplyEvent(r, e), front + [e])
  {
    hide LastStart;
    MembersSnoc(front, e);
    forall i: nat
      ensures LastStart(front + [e], i) <==> if e.RunStarted? then i == |front| else LastStart(front, i)
      ensures LastStart(front, i) ==> i < |front|
    {
      MarksSnoc(front, e, i);
    }
  }

  lemma EndSnoc(r: RunRecord, front: seq<WriteEvent>, e: WriteEvent)
    requires DescribesEnd(r, front)
    ensures DescribesEnd(ApplyEvent(r, e), front + [e])
  {
    hide LastEnd;
    MembersSnoc(front, e);
    forall i: nat
      ensures LastEnd(front + [e], i) <==> if e.RunCompleted? then i == |front| else LastEnd(front, i)
      ensures LastEnd(front, i) ==> i < |front|
    {
      MarksSnoc(front, e, i);
    }
  }

  lemma StatusSnoc(r: RunRecord, front: seq<WriteEvent>, e: WriteEvent)
    requires DescribesStatus(r, front)
    ensures DescribesStatus(ApplyEvent(r, e), front + [e])
  {
    hide LastMark;
    MembersSnoc(front, e);
    forall i: nat
      ensures LastMark(front + [e], i) <==>
        if e.RunStarted? || e.RunCompleted? then i == |front| else LastMark(front, i)
      ensures LastMark(front, i) ==> i < |front|
    {
      MarksSnoc(front, e, i);
    }
  }

  lemma EmptyDescribed(runId: RunId)
    ensures Describes(EmptyRecord(runId), runId, [])
  {
  }

  /** The fold records of a run what its log says last. */
  lemma {:induction false} ReconstructDescribes(runId: RunId, log: seq<WriteEvent>)
    ensures Describes(Reconstruct(runId, log), runId, log)
  {
    hide ApplyEvent, DescribesStart, DescribesEnd, DescribesStatus, EmptyRecord;
    if log == [] {
      EmptyDescribed(runId);
    } else {
      var front, e := log[..|log| - 1], log[|log| - 1];
      ReconstructDescribes(runId, front);
      var r := Reconstruct(runId, front);
      assert log == front + [e];
      StartSnoc(r, front, e);
      EndSnoc(r, front, e);
      StatusSnoc(r, front, e);
      ApplyKeepsId(r, e);
    }
  }

  lemma ApplyKeepsId(r: RunRecord, e: WriteEvent)
    ensures ApplyEvent(r, e).runId == r.runId
  {
  }

  // ---- Stable sort by sequence number ----

  ghost predicate Sorted(s: seq<WriteEvent>) {
    forall i, j :: 0 <= i < j < |s| ==> s[i].seqNo <= s[j].seqNo
  }

  ghost predicate StrictlySorted(s: seq<WriteEvent>) {
    forall i, j :: 0 <= i < j < |s| ==> s[i].seqNo < s[j].seqNo
  }

  /** Insert behind everything not larger. */
  function Insert(s: seq<WriteEvent>, e: WriteEvent): (r: seq<WriteEvent>)
    ensures |r| == |s| + 1
  {
    if s == [] || s[|s| - 1].seqNo <= e.seqNo then s + [e]
    else Insert(s[..|s| - 1], e) + [s[|s| - 1]]
  }

  function Sort(s: seq<WriteEvent>): (r: seq<WriteEvent>)
    ensures |r| == |s|
  {
    if s == [] then [] else Insert(Sort(s[..|s| - 1]), s[|s| - 1])
  }

  lemma {:induction false} InsertContents(s: seq<WriteEvent>, e: WriteEvent)
    ensures multiset(Insert(s, e)) == multiset(s) + multiset{e}
    ensures forall x :: x in Insert(s, e) <==> x in s || x == e
  {
    if s == [] || s[|s| - 1].seqNo <= e.seqNo {
    } else {
      InsertContents(s[..|s| - 1], e);
      assert s == s[..|s| - 1] + [s[|s| - 1]];
    }
  }

  lemma {:induction false} InsertSorted(s: seq<WriteEvent>, e: WriteEvent)
    requires Sorted(s)
    ensures Sorted(Insert(s, e))
  {
    if s == [] || s[|s| - 1].seqNo <= e.seqNo {
    } else {
      InsertSorted(s[..|s| - 1], e);
      InsertContents(s[..|s| - 1], e);
      var front, last := Insert(s[..|s| - 1], e), s[|s| - 1];
      forall i | 0 <= i < |front| ensures front[i].seqNo <= last.seqNo {
        assert front[i] in front;
      }
    }
  }

  lemma {:induction false} SortContents(s: seq<WriteEvent>)
    ensures multiset(Sort(s)) == multiset(s)
  {
    hide Insert;
    if s != [] {
      SortContents(s[..|s| - 1]);
      InsertContents(Sort(s[..|s| - 1]), s[|s| - 1]);
      assert s == s[..|s| - 1] + [s[|s| - 1]];
    }
  }

  /** Sorting permutes and orders. */
  lemma {:induction false} SortSorts(s: seq<WriteEvent>)
    ensures Sorted(Sort(s)) && multiset(Sort(s)) == multiset(s)
    ensures forall x :: x in Sort(s) <==> x in s
  {
    hide Sorted, Insert;
    SortContents(s);
    forall x ensures x in Sort(s) <==> x in s {
      assert x in multiset(Sort(s)) <==> x in multiset(s);
    }
    if s != [] {
      SortSorts(s[..|s| - 1]);
      InsertSorted(Sort(s[..|s| - 1]), s[|s| - 1]);
    } else {
      EmptySorted();
    }
  }

  lemma EmptySorted()
    ensures Sorted([])
  {
  }

  function WithSeq(s: seq<WriteEvent>, q: nat): seq<WriteEvent> {
    if s == [] then []
    else
      var rest := WithSeq(s[..|s| - 1], q);
      if s[|s| - 1].seqNo == q then rest + [s[|s| - 1]] else rest
  }

  lemma {:induction false} InsertStable(s: seq<WriteEvent>, e: WriteEvent, q: nat)
    ensures WithSeq(Insert(s, e), q) == if e.seqNo == q then WithSeq(s, q) + [e] else WithSeq(s, q)
  {
    var r := Insert(s, e);
    if s == [] || s[|s| - 1].seqNo <= e.seqNo {
      assert r[..|r| - 1] == s;
    } else {
      InsertStable(s[..|s| - 1], e, q);
      assert r[..|r| - 1] == Insert(s[..|s| - 1], e);
    }
  }

  /** Sorting keeps events of equal sequence number in their order. */
  lemma {:induction false} SortStable(s: seq<WriteEvent>, q: nat)
    ensures WithSeq(Sort(s), q) == WithSeq(s, q)
  {
    if s != [] {
      SortStable(s[..|s| - 1], q);
      InsertStable(Sort(s[..|s| - 1]), s[|s| - 1], q);
    }
  }

  lemma {:induction false} SortOfSorted(s: seq<WriteEvent>)
    requires Sorted(s)
    ensures Sort(s) == s
  {
    hide Sort, Insert;
    if s == [] {
      SortEmpty();
    } else {
      var front, last := s[..|s| - 1], s[|s| - 1];
      SortOfSorted(front);
      SortSnoc(s);
      InsertLast(front, last);
      assert s == front + [last];
    }
  }

  lemma SortEmpty()
    ensures Sort([]) == []
  {
  }

  lemma SortSnoc(s: seq<WriteEvent>)
    requires s != []
    ensures Sort(s) == Insert(Sort(s[..|s| - 1]), s[|s| - 1])
  {
    hide Insert;
  }

  lemma InsertLast(s: seq<WriteEvent>, e: WriteEvent)
    requires s == [] || s[|s| - 1].seqNo <= e.seqNo
    ensures Insert(s, e) == s + [e]
  {
  }

  /** A strictly sorted sequence is determined by its elements. */
  lemma {:induction false} StrictlySortedUnique(a: seq<WriteEvent>, b: seq<WriteEvent>)
    requires StrictlySorted(a) && StrictlySorted(b) && forall x :: x in a <==> x in b
    ensures a == b
  {
    assert b != [] ==> b[0] in b;
    if a != [] {
      assert a[0] in a && a[0] in b;
      assert b[0] in b && b[0] in a;
      assert a[0] == b[0];
      forall x ensures x in a[1..] <==> x in b[1..] {
        assert x in a <==> x == a[0] || x in a[1..];
        assert x in b <==> x == b[0] || x in b[1..];
      }
      StrictlySortedUnique(a[1..], b[1..]);
    }
  }
}
