/** When the attempts read back from a log are the attempts that were made. */
module HistoryRoundTrip {
  import opened Common
  import opened Events
  import opened NodeHistory

  // ---- What the history should read ----

  /** The record of one finished attempt. */
  function AttemptRecord(x: Execution, attempt: nat): Attempt {
    match x.results(attempt)
    case Returned(outputs, durationMs) => Attempt(attempt, x.index, x.inputs, Some(outputs), None, Some(durationMs))
    case Errored(message, _) => Attempt(attempt, x.index, x.inputs, None, Some(message), None)
    case TimedOut(message) => Attempt(attempt, x.index, x.inputs, None, Some(message), None)
  }

  function OpenRecord(x: Execution, attempt: nat): Attempt {
    Attempt(attempt, x.index, x.inputs, None, None, None)
  }

  /** All attempts of one execution, each with its own inputs and outcome. */
  function AttemptRecords(x: Execution, attempt: nat): seq<Attempt>
    decreases x.MaxAttempts() - attempt
  {
    [AttemptRecord(x, attempt)] + if x.WillRetry(attempt) then AttemptRecords(x, attempt + 1) else []
  }

  function Read(l: Line): Attempt {
    if l.done then AttemptRecord(l.x, l.attempt) else OpenRecord(l.x, l.attempt)
  }

  function ReadAll(ledger: seq<Line>): (r: seq<Attempt>)
    ensures |r| == |ledger| && forall t :: 0 <= t < |ledger| ==> r[t] == Read(ledger[t])
  {
    seq(|ledger|, t requires 0 <= t < |ledger| => Read(ledger[t]))
  }

  // ---- The ledger and the jobs agree ----

  ghost predicate BusyListed(w: World, node: string) {
    forall i :: 0 <= i < |w.jobs| && w.jobs[i].phase.Busy? && w.jobs[i].x.node == node ==> Listed(w, i)
  }

  ghost predicate Listed(w: World, i: nat)
    requires i < |w.jobs| && w.jobs[i].phase.Busy?
  {
    var p := w.jobs[i].phase;
    p.slot < |w.ledger| && w.ledger[p.slot] == Line(i, w.jobs[i].x, p.attempt, false)
  }

  ghost predicate OpenBusy(w: World, node: string) {
    forall t :: 0 <= t < |w.ledger| && !w.ledger[t].done ==> Owned(w, t, node)
  }

  ghost predicate Owned(w: World, t: nat, node: string)
    requires t < |w.ledger|
  {
    var l := w.ledger[t];
    l.job < |w.jobs| && w.jobs[l.job] == Job(l.x, Busy(l.attempt, t)) && l.x.node == node
  }

  ghost predicate Agree(w: World, node: string) {
    BusyListed(w, node) && OpenBusy(w, node)
  }

  lemma AdvanceAgrees(w: World, i: nat, node: string)
    requires Agree(w, node)
    ensures Agree(Advance(w, i, node), node)
  {
  }

  lemma {:induction false} InterleaveAgrees(xs: seq<Execution>, choices: seq<nat>, node: string)
    ensures Agree(Interleave(xs, choices, node), node)
  {
    hide Advance, Agree;
    if choices != [] {
      InterleaveAgrees(xs, choices[..|choices| - 1], node);
      AdvanceAgrees(Interleave(xs, choices[..|choices| - 1], node), choices[|choices| - 1], node);
    } else {
      EmptyAgrees(xs, node);
    }
  }

  lemma EmptyAgrees(xs: seq<Execution>, node: string)
    ensures Agree(Interleave(xs, [], node), node)
  {
  }

  // ---- One step is read back exactly when its end event has no rival ----

  /** Job `j` is in the middle of an attempt of the node that began after slot `slot`. */
  predicate BusySince(w: World, j: nat, slot: nat, node: string)
    requires j < |w.jobs|
  {
    w.jobs[j].x.node == node && w.jobs[j].phase.Busy? && w.jobs[j].phase.slot > slot
  }

  /** A completion can be mistaken only for one of the same fan-out index, a failure for any. */
  predicate Mistakable(x: Execution, attempt: nat, y: Execution) {
    x.results(attempt).Returned? ==> x.index == y.index
  }

  /** Job `i` is about to end an attempt while a later one that looks alike is still unfinished. */
  ghost predicate Ambiguous(w: World, i: nat, node: string) {
    i < |w.jobs| && w.jobs[i].phase.Busy? && w.jobs[i].x.node == node &&
    exists j :: 0 <= j < |w.jobs| && BusySince(w, j, w.jobs[i].phase.slot, node) &&
                Mistakable(w.jobs[i].x, w.jobs[i].phase.attempt, w.jobs[j].x)
  }

  function WantOf(x: Execution, attempt: nat): Want {
    if x.results(attempt).Returned? then Index(x.index) else Any
  }

  lemma LastOpenUnique(attempts: seq<Attempt>, w: Want, t: nat)
    requires t < |attempts| && w.Fits(attempts[t])
    requires forall u :: t < u < |attempts| ==> !w.Fits(attempts[u])
    ensures LastOpen(attempts, w) == Some(t)
  {
  }

  /** The attempt an end event is attributed to. */
  lemma EndFinds(w: World, i: nat, node: string)
    requires Agree(w, node)
    requires i < |w.jobs| && w.jobs[i].phase.Busy? && w.jobs[i].x.node == node
    ensures var r := LastOpen(ReadAll(w.ledger), WantOf(w.jobs[i].x, w.jobs[i].phase.attempt));
            r.Some? && (r.value == w.jobs[i].phase.slot <==> !Ambiguous(w, i, node))
  {
  }

  function Ended(a: Attempt, x: Execution, attempt: nat): Attempt {
    match x.results(attempt)
    case Returned(outputs, durationMs) => a.(outputs := Some(outputs), durationMs := Some(durationMs))
    case Errored(message, _) => a.(error := Some(message))
    case TimedOut(message) => a.(error := Some(message))
  }

  lemma ObserveEnd(attempts: seq<Attempt>, x: Execution, attempt: nat)
    ensures var r := LastOpen(attempts, WantOf(x, attempt));
            Observe(attempts, EndEvent(x, attempt), x.node) ==
            if r.None? then attempts else attempts[r.value := Ended(attempts[r.value], x, attempt)]
  {
  }

  lemma EndRead(w: World, i: nat, node: string)
    requires Agree(w, node)
    requires i < |w.jobs| && w.jobs[i].phase.Busy? && w.jobs[i].x.node == node
    ensures var seen := Observe(ReadAll(w.ledger), EndEvent(w.jobs[i].x, w.jobs[i].phase.attempt), node);
            seen == ReadAll(Close(w.ledger, w.jobs[i].phase.slot)) <==> !Ambiguous(w, i, node)
  {
    hide LastOpen, ReadAll, Observe, EndEvent, Ambiguous;
    var x, a, slot := w.jobs[i].x, w.jobs[i].phase.attempt, w.jobs[i].phase.slot;
    var attempts := ReadAll(w.ledger);
    assert Listed(w, i);
    EndFinds(w, i, node);
    ObserveEnd(attempts, x, a);
    var t := LastOpen(attempts, WantOf(x, a)).value;
    var seen, closed := attempts[t := Ended(attempts[t], x, a)], ReadAll(Close(w.ledger, slot));
    assert Ended(attempts[slot], x, a) == AttemptRecord(x, a) == closed[slot] != attempts[slot];
    if t == slot {
      assert seen == closed;
    } else {
      assert seen[slot] == attempts[slot];
    }
  }

  /** One step keeps history and ledger equal unless, and only unless, it is ambiguous. */
  lemma StepRead(w: World, i: nat, node: string)
    requires Agree(w, node) && ObserveAll([], w.log, node) == ReadAll(w.ledger)
    ensures var next := Advance(w, i, node);
            ObserveAll([], next.log, node) == ReadAll(next.ledger) <==> !Ambiguous(w, i, node)
  {
    hide LastOpen, EndEvent, Observe, Agree, ReadAll, Close;
    var next := Advance(w, i, node);
    if next.log != w.log {
      var e := next.log[|w.log|];
      assert next.log[..|w.log|] == w.log;
      assert ObserveAll([], next.log, node) == Observe(ReadAll(w.ledger), e, node);
      var x := w.jobs[i].x;
      if w.jobs[i].phase.Busy? && x.node == node {
        EndRead(w, i, node);
      } else if w.jobs[i].phase.Ready? && x.node == node {
        StartRead(w.ledger, i, x, w.jobs[i].phase.attempt);
      } else {
        IgnoredRead(ReadAll(w.ledger), e, node);
      }
    }
  }

  lemma StartRead(ledger: seq<Line>, i: nat, x: Execution, attempt: nat)
    ensures Observe(ReadAll(ledger), StartEvent(x, attempt), x.node) == ReadAll(ledger + [Line(i, x, attempt, false)])
  {
  }

  lemma IgnoredRead(attempts: seq<Attempt>, e: WriteEvent, node: string)
    requires !Relevant(e, node)
    ensures Observe(attempts, e, node) == attempts
  {
  }

  // ---- The round trip over whole interleavings ----

  /** The history read after the first `k` events is what had really happened by then. */
  ghost predicate ReadsTrue(xs: seq<Execution>, choices: seq<nat>, node: string) {
    var w := Interleave(xs, choices, node);
    ObserveAll([], w.log, node) == ReadAll(w.ledger)
  }

  ghost predicate AlwaysTrue(xs: seq<Execution>, choices: seq<nat>, node: string) {
    forall k :: 0 <= k <= |choices| ==> ReadsTrue(xs, choices[..k], node)
  }

  ghost predicate NeverAmbiguous(xs: seq<Execution>, choices: seq<nat>, node: string) {
    forall k :: 0 <= k < |choices| ==> !Ambiguous(Interleave(xs, choices[..k], node), choices[k], node)
  }

  /** Reading the log at every moment gives the truth if and only if no attempt ever ends while a
      later unfinished one looks alike. */
  lemma {:induction false} RoundTripExact(xs: seq<Execution>, choices: seq<nat>, node: string)
    ensures AlwaysTrue(xs, choices, node) <==> NeverAmbiguous(xs, choices, node)
  {
    hide Advance, Agree, Ambiguous, ReadAll, ObserveAll;
    var n := |choices| - 1;
    if choices == [] {
      NothingRead(xs, node);
      assert choices[..0] == [];
    } else {
      var before := choices[..n];
      RoundTripExact(xs, before, node);
      assert choices[..|choices|] == choices;
      assert forall k :: 0 <= k <= n ==> before[..k] == choices[..k];
      InterleaveAgrees(xs, before, node);
      if ReadsTrue(xs, before, node) {
        StepRead(Interleave(xs, before, node), choices[n], node);
        assert ReadsTrue(xs, choices, node) <==> !Ambiguous(Interleave(xs, before, node), choices[n], node);
      }
      SplitLast(xs, choices, node);
    }
  }

  lemma SplitLast(xs: seq<Execution>, choices: seq<nat>, node: string)
    requires choices != []
    ensures var n := |choices| - 1; var before := choices[..n];
            && (AlwaysTrue(xs, choices, node) <==> AlwaysTrue(xs, before, node) && ReadsTrue(xs, choices, node))
            && (NeverAmbiguous(xs, choices, node) <==>
                NeverAmbiguous(xs, before, node) && !Ambiguous(Interleave(xs, before, node), choices[n], node))
            && (AlwaysTrue(xs, before, node) ==> ReadsTrue(xs, before, node))
  {
    hide Interleave, ReadsTrue, Ambiguous;
    var n := |choices| - 1;
    var before := choices[..n];
    assert choices[..|choices|] == choices && before[..n] == before;
    assert forall k :: 0 <= k <= n ==> before[..k] == choices[..k];
    if AlwaysTrue(xs, choices, node) {
      forall k | 0 <= k <= n ensures ReadsTrue(xs, before[..k], node) {
        assert ReadsTrue(xs, choices[..k], node);
      }
    }
    if NeverAmbiguous(xs, choices, node) {
      forall k | 0 <= k < n ensures !Ambiguous(Interleave(xs, before[..k], node), before[k], node) {
        assert !Ambiguous(Interleave(xs, choices[..k], node), choices[k], node);
      }
    }
  }

  lemma NothingRead(xs: seq<Execution>, node: string)
    ensures ReadsTrue(xs, [], node)
  {
  }

  // ---- Each job writes exactly its own trace, and the ledger lists exactly its own attempts ----

  function EventsLeft(x: Execution, phase: Phase): seq<WriteEvent> {
    match phase
    case Ready(a) => Trace(x, a)
    case Busy(a, _) => [EndEvent(x, a)] + TraceRest(x, a)
    case Saving(outputs) => [Checkpoint(x.runId, 0, x.node, outputs, 0)]
    case Finished => []
  }

  function RecordsLeft(x: Execution, phase: Phase): seq<Attempt> {
    match phase
    case Ready(a) => AttemptRecords(x, a)
    case Busy(a, _) => if x.WillRetry(a) then AttemptRecords(x, a + 1) else []
    case _ => []
  }

  /** The finished records of all lines of one job. */
  function RecordsMade(ledger: seq<Line>, i: nat): seq<Attempt> {
    if ledger == [] then []
    else
      var last := ledger[|ledger| - 1];
      RecordsMade(ledger[..|ledger| - 1], i) + if last.job == i then [AttemptRecord(last.x, last.attempt)] else []
  }

  /** Who started the attempts of a node, in the order of the start events. */
  function Starters(log: seq<WriteEvent>, owners: seq<nat>, node: string): seq<nat>
    requires |log| == |owners|
  {
    if log == [] then []
    else
      var n := |log| - 1;
      var rest := Starters(log[..n], owners[..n], node);
      if log[n].NodeStarted? && log[n].nodeId == node then rest + [owners[n]] else rest
  }

  function Makers(ledger: seq<Line>): (r: seq<nat>)
    ensures |r| == |ledger|
  {
    seq(|ledger|, t requires 0 <= t < |ledger| => ledger[t].job)
  }

  /** A job's past and future add up to one whole execution. */
  ghost predicate Whole(w: World, i: nat, x: Execution, node: string)
    requires i < |w.jobs| && |w.log| == |w.owners|
  {
    && w.jobs[i].x == x
    && Of(w.log, w.owners, i) + EventsLeft(x, w.jobs[i].phase) == Trace(x, 1)
    && (x.node == node ==> RecordsMade(w.ledger, i) + RecordsLeft(x, w.jobs[i].phase) == AttemptRecords(x, 1))
  }

  ghost predicate AllWhole(w: World, xs: seq<Execution>, node: string) {
    && |w.jobs| == |xs| && |w.log| == |w.owners|
    && (forall i :: 0 <= i < |xs| ==> Whole(w, i, xs[i], node))
    && Makers(w.ledger) == Starters(w.log, w.owners, node)
    && AllOf(Makers(w.ledger), xs, node)
  }

  /** Only executions of the node. */
  ghost predicate AllOf(makers: seq<nat>, xs: seq<Execution>, node: string) {
    forall t :: 0 <= t < |makers| ==> makers[t] < |xs| && xs[makers[t]].node == node
  }

  lemma OfSnoc<T>(items: seq<T>, owners: seq<nat>, t: T, j: nat, i: nat)
    requires |items| == |owners|
    ensures Of(items + [t], owners + [j], i) == Of(items, owners, i) + if j == i then [t] else []
  {
  }

  lemma StartersSnoc(log: seq<WriteEvent>, owners: seq<nat>, e: WriteEvent, j: nat, node: string)
    requires |log| == |owners|
    ensures Starters(log + [e], owners + [j], node) ==
            Starters(log, owners, node) + if e.NodeStarted? && e.nodeId == node then [j] else []
  {
  }

  lemma RecordsSnoc(ledger: seq<Line>, l: Line, i: nat)
    ensures RecordsMade(ledger + [l], i) ==
            RecordsMade(ledger, i) + if l.job == i then [AttemptRecord(l.x, l.attempt)] else []
  {
  }

  lemma {:induction false} RecordsClose(ledger: seq<Line>, slot: nat, i: nat)
    ensures RecordsMade(Close(ledger, slot), i) == RecordsMade(ledger, i)
  {
    hide AttemptRecord;
    if slot < |ledger| {
      var n := |ledger| - 1;
      RecordsClose(ledger[..n], slot, i);
      if slot < n {
        assert Close(ledger, slot)[..n] == Close(ledger[..n], slot);
      } else {
        assert Close(ledger, slot)[..n] == ledger[..n];
      }
    }
  }

  /** Phases only move along the trace: one event, and at a start one record, leaves the future. */
  lemma PhaseMoves(x: Execution, phase: Phase, slot: nat)
    ensures phase.Ready? ==>
      && EventsLeft(x, phase) == [StartEvent(x, phase.attempt)] + EventsLeft(x, Busy(phase.attempt, slot))
      && RecordsLeft(x, phase) == [AttemptRecord(x, phase.attempt)] + RecordsLeft(x, Busy(phase.attempt, slot))
    ensures phase.Busy? ==>
      && EventsLeft(x, phase) == [EndEvent(x, phase.attempt)] + EventsLeft(x, After(x, phase.attempt))
      && RecordsLeft(x, phase) == RecordsLeft(x, After(x, phase.attempt))
  {
  }

  lemma Shift<T>(a: seq<T>, b: T, c: seq<T>)
    ensures (a + [b]) + c == a + ([b] + c)
  {
  }

  lemma StepWhole(w: World, i: nat, xs: seq<Execution>, node: string, k: nat)
    requires AllWhole(w, xs, node) && k < |xs|
    ensures var next := Advance(w, i, node);
            |next.jobs| == |xs| && |next.log| == |next.owners| && Whole(next, k, xs[k], node)
  {
    hide StartEvent, EndEvent, EventsLeft, RecordsLeft, RecordsMade, AttemptRecord, AttemptRecords, Trace, Of;
    hide Makers, Starters, Close, After;
    var next := Advance(w, i, node);
    assert Whole(w, k, xs[k], node);
    if next.log != w.log {
      var x, phase := w.jobs[i].x, w.jobs[i].phase;
      var e := next.log[|w.log|];
      OfSnoc(w.log, w.owners, e, i, k);
      PhaseMoves(x, phase, |w.ledger|);
      if phase.Ready? {
        var a := phase.attempt;
        RecordsSnoc(w.ledger, Line(i, x, a, false), k);
        Shift(RecordsMade(w.ledger, k), AttemptRecord(x, a), RecordsLeft(x, Busy(a, |w.ledger|)));
      } else if phase.Busy? {
        RecordsClose(w.ledger, phase.slot, k);
      } else {
        SavingLeft(x, phase);
      }
      Shift(Of(w.log, w.owners, k), e, EventsLeft(next.jobs[k].x, next.jobs[k].phase));
    }
  }

  lemma SavingLeft(x: Execution, phase: Phase)
    requires phase.Saving?
    ensures EventsLeft(x, phase) == [Checkpoint(x.runId, 0, x.node, phase.outputs, 0)] + EventsLeft(x, Finished)
    ensures RecordsLeft(x, phase) == RecordsLeft(x, Finished)
  {
  }

  lemma StepMakers(w: World, i: nat, xs: seq<Execution>, node: string)
    requires |w.log| == |w.owners| && Makers(w.ledger) == Starters(w.log, w.owners, node)
    requires AllOf(Makers(w.ledger), xs, node) && (i < |w.jobs| ==> i < |xs| && w.jobs[i].x == xs[i])
    ensures var next := Advance(w, i, node);
            && |next.log| == |next.owners| && Makers(next.ledger) == Starters(next.log, next.owners, node)
            && AllOf(Makers(next.ledger), xs, node)
  {
    hide EndEvent, Starters;
    var next := Advance(w, i, node);
    if next.log != w.log {
      StartersSnoc(w.log, w.owners, next.log[|w.log|], i, node);
      assert |next.ledger| > |w.ledger| ==> Makers(next.ledger) == Makers(w.ledger) + [i];
      assert |next.ledger| == |w.ledger| ==> Makers(next.ledger) == Makers(w.ledger);
    }
  }

  /** Every interleaving is one: each job writes a prefix of its trace, then the rest. */
  lemma {:induction false} InterleaveWhole(xs: seq<Execution>, choices: seq<nat>, node: string)
    ensures AllWhole(Interleave(xs, choices, node), xs, node)
  {
    hide Advance, Trace, AttemptRecords, Makers, Starters, AllOf;
    if choices == [] {
      NothingWhole(xs, node);
    } else {
      var before := Interleave(xs, choices[..|choices| - 1], node);
      var i := choices[|choices| - 1];
      InterleaveWhole(xs, choices[..|choices| - 1], node);
      assert i < |xs| ==> Whole(before, i, xs[i], node);
      StepMakers(before, i, xs, node);
      var next := Advance(before, i, node);
      if xs == [] {
        NobodyMoves(before, i, node);
      } else {
        StepWhole(before, i, xs, node, 0);
      }
      forall k | 0 <= k < |xs|
        ensures |next.jobs| == |xs| && Whole(next, k, xs[k], node)
      {
        StepWhole(before, i, xs, node, k);
      }
    }
  }

  lemma NobodyMoves(w: World, i: nat, node: string)
    requires w.jobs == []
    ensures Advance(w, i, node) == w
  {
  }

  lemma NothingWhole(xs: seq<Execution>, node: string)
    ensures AllWhole(Interleave(xs, [], node), xs, node)
  {
  }

  // ---- The round trip ----

  /** A history that holds the attempts of the given executions: `makers` tells whose each one is. */
  ghost predicate Tells(history: seq<Attempt>, makers: seq<nat>, xs: seq<Execution>, node: string) {
    && |history| == |makers| && AllOf(makers, xs, node)
    && forall i :: 0 <= i < |xs| && xs[i].node == node ==> Of(history, makers, i) == AttemptRecords(xs[i], 1)
  }

  lemma {:induction false} MadeIsRead(ledger: seq<Line>, i: nat)
    requires forall t :: 0 <= t < |ledger| ==> ledger[t].done
    ensures Of(ReadAll(ledger), Makers(ledger), i) == RecordsMade(ledger, i)
  {
    hide AttemptRecord;
    if ledger != [] {
      var n := |ledger| - 1;
      MadeIsRead(ledger[..n], i);
      assert ReadAll(ledger)[..n] == ReadAll(ledger[..n]) && Makers(ledger)[..n] == Makers(ledger[..n]);
    }
  }

  lemma LedgerTells(w: World, xs: seq<Execution>, node: string)
    requires Agree(w, node) && AllWhole(w, xs, node) && AllFinished(w)
    ensures Tells(ReadAll(w.ledger), Makers(w.ledger), xs, node)
  {
    hide RecordsMade, AttemptRecords, Of, Trace, ReadAll, Makers, Starters;
    forall t | 0 <= t < |w.ledger| ensures w.ledger[t].done {
      assert !w.ledger[t].done ==> Owned(w, t, node);
    }
    forall i | 0 <= i < |xs| && xs[i].node == node
      ensures Of(ReadAll(w.ledger), Makers(w.ledger), i) == AttemptRecords(xs[i], 1)
    {
      MadeIsRead(w.ledger, i);
      assert Whole(w, i, xs[i], node);
    }
  }

  /** Whatever else the log holds and however it is numbered: once every execution has ended, and
      if none ended ambiguously, the attempts read back are those made, in the order they started. */
  lemma RoundTrip(xs: seq<Execution>, choices: seq<nat>, node: string, log: seq<WriteEvent>)
    requires var w := Interleave(xs, choices, node); AllFinished(w) && Project(log, node) == Project(w.log, node)
    requires NeverAmbiguous(xs, choices, node)
    ensures var w := Interleave(xs, choices, node);
            && |w.jobs| == |xs| && |w.log| == |w.owners|
            && (forall i :: 0 <= i < |xs| ==> Of(w.log, w.owners, i) == Trace(xs[i], 1))
            && Tells(ObserveAll([], log, node), Starters(w.log, w.owners, node), xs, node)
  {
    hide Advance, Interleave, Agree, Ambiguous, ReadAll, Makers, Of, Trace, Tells, Project, ObserveAll, RecordsMade;
    hide Starters;
    var w := Interleave(xs, choices, node);
    RoundTripExact(xs, choices, node);
    assert ReadsTrue(xs, choices, node) by {
      assert choices[..|choices|] == choices;
    }
    ObserveProject([], log, node);
    ObserveProject([], w.log, node);
    InterleaveAgrees(xs, choices, node);
    InterleaveWhole(xs, choices, node);
    LedgerTells(w, xs, node);
    forall i | 0 <= i < |xs| ensures Of(w.log, w.owners, i) == Trace(xs[i], 1) {
      assert Whole(w, i, xs[i], node);
    }
  }

  // ---- When nothing is ambiguous ----

  /** Executions of the node that overlap are fan-out instances of different index, none of which is about to fail. */
  ghost predicate Apart(w: World, node: string) {
    forall i, j :: 0 <= i < |w.jobs| && 0 <= j < |w.jobs| && i != j && OnNode(w, i, node) && OnNode(w, j, node) ==>
      w.jobs[i].x.index != w.jobs[j].x.index && w.jobs[i].x.results(w.jobs[i].phase.attempt).Returned?
  }

  predicate OnNode(w: World, i: nat, node: string)
    requires i < |w.jobs|
  {
    w.jobs[i].x.node == node && w.jobs[i].phase.Busy?
  }

  /** So serial executions, and fan-out without failures, are read back exactly. */
  lemma ApartNeverAmbiguous(xs: seq<Execution>, choices: seq<nat>, node: string)
    requires forall k :: 0 <= k < |choices| ==> Apart(Interleave(xs, choices[..k], node), node)
    ensures NeverAmbiguous(xs, choices, node)
  {
    hide Interleave;
    forall k | 0 <= k < |choices|
      ensures !Ambiguous(Interleave(xs, choices[..k], node), choices[k], node)
    {
      var w, i := Interleave(xs, choices[..k], node), choices[k];
      assert Apart(w, node);
      forall j | i < |w.jobs| && OnNode(w, i, node) && 0 <= j < |w.jobs| && BusySince(w, j, w.jobs[i].phase.slot, node)
        ensures !Mistakable(w.jobs[i].x, w.jobs[i].phase.attempt, w.jobs[j].x)
      {
        assert OnNode(w, j, node);
      }
    }
  }

  /** Two overlapping fan-out instances, the first of which fails: its error is recorded against the
      other, whose outputs are lost, and the failed instance stays open for ever. */
  lemma FailureMisattributed(x: Execution, y: Execution)
    requires x.node == y.node && x.index != y.index
    requires x.results(1).TimedOut? && y.results(1).Returned?
    ensures ObserveAll([], [StartEvent(x, 1), StartEvent(y, 1), EndEvent(x, 1), EndEvent(y, 1)], x.node) ==
            [OpenRecord(x, 1), OpenRecord(y, 1).(error := Some(x.results(1).message))]
  {
    hide LastOpen;
    var a, b, c, d := StartEvent(x, 1), StartEvent(y, 1), EndEvent(x, 1), EndEvent(y, 1);
    assert [a, b, c, d][..3] == [a, b, c] && [a, b, c][..2] == [a, b] && [a, b][..1] == [a] && [a][..0] == [];
    assert ObserveAll([], [a], x.node) == [OpenRecord(x, 1)];
    var two := [OpenRecord(x, 1), OpenRecord(y, 1)];
    assert ObserveAll([], [a, b], x.node) == two;
    LastOpenUnique(two, Any, 1);
    var three := two[1 := two[1].(error := Some(x.results(1).message))];
    assert ObserveAll([], [a, b, c], x.node) == three;
    assert LastOpen(three, Index(y.index)) == None;
  }
}
