/** From execution to the store and back: the log of a drained pipeline holds what was issued, in
    order of numbers, so a node's history read from the store is the attempts that were made. */
module StoredHistory {
  import opened Events
  import opened Store
  import opened StoreLaws
  import opened Pipeline
  import opened ExactlyOnce
  import opened NodeHistory
  import opened HistoryRoundTrip

  // ---- What has been issued ----

  /** The events that were given numbers, in the order of their numbers. */
  function Issued(c: Config, actions: seq<Action>): seq<WriteEvent> {
    if actions == [] then []
    else
      var front, a := actions[..|actions| - 1], actions[|actions| - 1];
      Issued(c, front) + NewlyIssued(c, Perform(c, front), a)
  }

  function NewlyIssued(c: Config, s: Pipe, a: Action): seq<WriteEvent> {
    if !Enabled(c, s, a) then []
    else
      match a
      case Allocate(e) => [e.Numbered(s.nextSeq)]
      case AllocateAdvisory(e) => [e.Numbered(s.nextSeq)]
      case _ => []
  }

  ghost predicate Idempotent(c: Config) { forall e :: c.redact(c.redact(e)) == c.redact(e) }

  /** An issued event, as it was or redacted. */
  ghost predicate Derived(c: Config, issued: seq<WriteEvent>, x: WriteEvent) {
    exists a :: a in issued && (x == a || x == c.redact(a))
  }

  /** An issued event, redacted. */
  ghost predicate Clean(c: Config, issued: seq<WriteEvent>, x: WriteEvent) {
    exists a :: a in issued && x == c.redact(a)
  }

  ghost predicate AllClean(c: Config, issued: seq<WriteEvent>, xs: seq<WriteEvent>) {
    forall x :: x in xs ==> Clean(c, issued, x)
  }

  ghost predicate AllDerived(c: Config, issued: seq<WriteEvent>, xs: seq<WriteEvent>) {
    forall x :: x in xs ==> Derived(c, issued, x)
  }

  ghost predicate AllIn(xs: seq<WriteEvent>, issued: seq<WriteEvent>) { forall x :: x in xs ==> x in issued }

  /** Numbers grow, and stay below the next one. */
  ghost predicate InOrder(issued: seq<WriteEvent>, next: nat) {
    StrictlySorted(issued) && forall a :: a in issued ==> a.seqNo < next
  }

  /** Channels hold issued events; the store and a flush hold them redacted. */
  ghost predicate Traced(c: Config, issued: seq<WriteEvent>, s: Pipe) {
    && AllIn(s.waiting, issued) && AllIn(s.waitingAdvisory, issued)
    && AllIn(s.critical, issued) && AllIn(s.advisory, issued)
    && AllDerived(c, issued, s.batch) && AllClean(c, issued, InFlush(s))
    && LogsClean(c, issued, s.logs)
  }

  ghost predicate LogClean(c: Config, issued: seq<WriteEvent>, logs: Logs, r: string) {
    forall x :: x in LogOf(logs, r) ==> Clean(c, issued, x) && x.runId == r
  }

  ghost predicate LogsClean(c: Config, issued: seq<WriteEvent>, logs: Logs) {
    forall r :: LogClean(c, issued, logs, r)
  }

  /** A critical event that was issued is waiting to be sent or has been accepted. */
  ghost predicate NoneForgotten(issued: seq<WriteEvent>, s: Pipe) {
    forall a :: a in issued && a.IsCritical() ==> a in s.waiting || KeyOf(a) in s.accepted
  }

  // ---- Growing ----

  lemma DerivedGrows(c: Config, issued: seq<WriteEvent>, more: seq<WriteEvent>, xs: seq<WriteEvent>)
    ensures AllDerived(c, issued, xs) ==> AllDerived(c, issued + more, xs)
    ensures AllClean(c, issued, xs) ==> AllClean(c, issued + more, xs)
  {
    if AllDerived(c, issued, xs) {
      forall x | x in xs ensures Derived(c, issued + more, x) {
        var a :| a in issued && (x == a || x == c.redact(a));
        assert a in issued + more;
      }
    }
    if AllClean(c, issued, xs) {
      forall x | x in xs ensures Clean(c, issued + more, x) {
        var a :| a in issued && x == c.redact(a);
        assert a in issued + more;
      }
    }
  }

  lemma TracedGrows(c: Config, issued: seq<WriteEvent>, more: seq<WriteEvent>, s: Pipe)
    requires Traced(c, issued, s)
    ensures Traced(c, issued + more, s)
  {
    hide AllDerived, AllClean;
    DerivedGrows(c, issued, more, s.batch);
    DerivedGrows(c, issued, more, InFlush(s));
    forall r ensures LogClean(c, issued + more, s.logs, r) {
      LogGrows(c, issued, more, s.logs, r);
    }
  }

  lemma LogGrows(c: Config, issued: seq<WriteEvent>, more: seq<WriteEvent>, logs: Logs, r: string)
    requires LogClean(c, issued, logs, r)
    ensures LogClean(c, issued + more, logs, r)
  {
    hide Clean, AllDerived;
    assert AllClean(c, issued, LogOf(logs, r));
    DerivedGrows(c, issued, more, LogOf(logs, r));
  }

  lemma InDerived(c: Config, issued: seq<WriteEvent>, x: WriteEvent)
    requires x in issued
    ensures Derived(c, issued, x)
  {
  }

  lemma {:induction false} RedactedClean(c: Config, issued: seq<WriteEvent>, xs: seq<WriteEvent>)
    requires Idempotent(c) && AllDerived(c, issued, xs)
    ensures AllClean(c, issued, Redacted(c, xs))
  {
    if xs != [] {
      var last := xs[|xs| - 1];
      RedactedClean(c, issued, xs[..|xs| - 1]);
      assert last in xs && Derived(c, issued, last);
      var a :| a in issued && (last == a || last == c.redact(a));
      assert Clean(c, issued, c.redact(last));
    }
  }

  lemma {:induction false} PartsWithin(xs: seq<WriteEvent>, keys: set<Key>)
    ensures forall x :: x in Critical(xs) ==> x in xs
    ensures forall x :: x in Kept(xs, keys) ==> x in xs
  {
    if xs != [] {
      PartsWithin(xs[..|xs| - 1], keys);
      assert forall x :: x in xs <==> x in xs[..|xs| - 1] || x == xs[|xs| - 1];
    }
  }

  lemma WrittenFrom(logs: Logs, batch: seq<WriteEvent>, r: string, x: WriteEvent)
    requires x in LogOf(MemWrite(logs, batch), r)
    ensures x in LogOf(logs, r) || (x in batch && x.runId == r)
  {
    hide MemWrite, Appended, ForRun, RunIds;
    if r in RunIds(batch) {
      AppendedContents(LogOf(logs, r), ForRun(batch, r), x);
    }
  }

  lemma WriteClean(c: Config, issued: seq<WriteEvent>, logs: Logs, events: seq<WriteEvent>)
    requires AllClean(c, issued, events) && LogsClean(c, issued, logs)
    ensures LogsClean(c, issued, MemWrite(logs, events))
  {
    hide MemWrite, Clean, LogOf;
    var logs' := MemWrite(logs, events);
    forall r ensures LogClean(c, issued, logs', r) {
      assert LogClean(c, issued, logs, r);
      forall x | x in LogOf(logs', r) ensures Clean(c, issued, x) && x.runId == r {
        WrittenFrom(logs, events, r, x);
      }
    }
  }

  // ---- Every step ----

  lemma ProducerTraced(c: Config, issued: seq<WriteEvent>, s: Pipe, a: Action)
    requires Enabled(c, s, a) && Traced(c, issued, s)
    requires a.Allocate? || a.Send? || a.AllocateAdvisory? || a.TrySend?
    ensures Traced(c, issued + NewlyIssued(c, s, a), Do(c, s, a))
  {
    hide AllDerived, AllClean, LogsClean, MemWrite, Redacted, Critical, Kept, CriticalKeys;
    TracedGrows(c, issued, NewlyIssued(c, s, a), s);
  }

  lemma LoopTraced(c: Config, issued: seq<WriteEvent>, s: Pipe, a: Action)
    requires Idempotent(c) && Enabled(c, s, a) && Traced(c, issued, s)
    requires a.Receive? || a.ReceiveAdvisory? || a.BeginFlush?
    ensures Traced(c, issued, Do(c, s, a))
  {
    hide Clean, Derived, LogsClean, MemWrite, Redacted, Critical, Kept, CriticalKeys, Idempotent;
    match a {
      case Receive => InDerived(c, issued, s.critical[0]);
      case ReceiveAdvisory => InDerived(c, issued, s.advisory[0]);
      case BeginFlush => RedactedClean(c, issued, s.batch);
    }
  }

  lemma CleanIsDerived(c: Config, issued: seq<WriteEvent>, xs: seq<WriteEvent>)
    requires AllClean(c, issued, xs)
    ensures AllDerived(c, issued, xs)
  {
    forall x | x in xs ensures Derived(c, issued, x) {
      assert Clean(c, issued, x);
    }
  }

  lemma StoreTraced(c: Config, issued: seq<WriteEvent>, s: Pipe, a: Action)
    requires Enabled(c, s, a) && Traced(c, issued, s) && (a.StoreOk? || a.StoreFails?)
    ensures Traced(c, issued, Do(c, s, a))
  {
    hide Clean, Derived, LogsClean, MemWrite, Redacted, Critical, Kept, CriticalKeys;
    var events := s.flush.events;
    if a.StoreOk? {
      WriteClean(c, issued, s.logs, events);
    } else {
      PartsWithin(events, a.taken);
      WriteClean(c, issued, s.logs, Kept(events, a.taken));
      CleanIsDerived(c, issued, events);
    }
  }

  lemma StepTraced(c: Config, issued: seq<WriteEvent>, s: Pipe, a: Action)
    requires Idempotent(c) && Enabled(c, s, a) && Traced(c, issued, s)
    ensures Traced(c, issued + NewlyIssued(c, s, a), Do(c, s, a))
  {
    hide Traced, Idempotent, Do, Enabled;
    if a.Allocate? || a.Send? || a.AllocateAdvisory? || a.TrySend? {
      ProducerTraced(c, issued, s, a);
    } else {
      assert issued + NewlyIssued(c, s, a) == issued;
      if a.StoreOk? || a.StoreFails? {
        StoreTraced(c, issued, s, a);
      } else {
        LoopTraced(c, issued, s, a);
      }
    }
  }

  lemma StepInOrder(c: Config, issued: seq<WriteEvent>, s: Pipe, a: Action)
    requires Enabled(c, s, a) && InOrder(issued, s.nextSeq)
    ensures InOrder(issued + NewlyIssued(c, s, a), Do(c, s, a).nextSeq)
  {
    hide Do;
    NextNumber(c, s, a);
    var more := NewlyIssued(c, s, a);
    forall i | 0 <= i < |issued| ensures issued[i].seqNo < s.nextSeq {
      assert issued[i] in issued;
    }
  }

  lemma StepForgets(c: Config, issued: seq<WriteEvent>, s: Pipe, a: Action)
    requires Enabled(c, s, a) && NoneForgotten(issued, s)
    ensures NoneForgotten(issued + NewlyIssued(c, s, a), Do(c, s, a))
  {
    hide MemWrite, Redacted, Critical, Kept, KeyOf;
    var s' := Do(c, s, a);
    forall x | x in issued + NewlyIssued(c, s, a) && x.IsCritical() ensures x in s'.waiting || KeyOf(x) in s'.accepted {
      if a.Send? && x in s.waiting {
        var i :| 0 <= i < |s.waiting| && s.waiting[i] == x;
        if i < a.i {
          assert s'.waiting[i] == x;
        } else if i > a.i {
          assert s'.waiting[i - 1] == x;
        }
      }
    }
  }

  ghost predicate Tracked(c: Config, issued: seq<WriteEvent>, s: Pipe) {
    Traced(c, issued, s) && InOrder(issued, s.nextSeq) && NoneForgotten(issued, s)
  }

  lemma NothingTracked(c: Config)
    ensures Tracked(c, [], INITIAL)
  {
  }

  lemma {:induction false} RunTracked(c: Config, actions: seq<Action>)
    requires Idempotent(c)
    ensures Tracked(c, Issued(c, actions), Perform(c, actions))
  {
    hide Idempotent, Traced, InOrder, NoneForgotten, Do, Enabled;
    if actions == [] {
      NothingTracked(c);
    } else {
      var front, a := actions[..|actions| - 1], actions[|actions| - 1];
      RunTracked(c, front);
      var issued, s := Issued(c, front), Perform(c, front);
      if Enabled(c, s, a) {
        StepTraced(c, issued, s, a);
        StepInOrder(c, issued, s, a);
        StepForgets(c, issued, s, a);
      } else {
        assert issued + NewlyIssued(c, s, a) == issued;
      }
    }
  }

  // ---- The log of a drained pipeline ----

  ghost predicate Drained(s: Pipe) { s.flush.Idle? && s.waiting == [] && s.critical == [] && s.batch == [] }

  lemma {:induction false} CriticalMember(xs: seq<WriteEvent>, x: WriteEvent)
    ensures x in Critical(xs) <==> x in xs && x.IsCritical()
  {
    if xs != [] {
      CriticalMember(xs[..|xs| - 1], x);
      assert x in xs <==> x in xs[..|xs| - 1] || x == xs[|xs| - 1];
    }
  }

  lemma {:induction false} RedactedMember(c: Config, xs: seq<WriteEvent>, x: WriteEvent)
    ensures x in Redacted(c, xs) <==> exists a :: a in xs && x == c.redact(a)
  {
    if xs != [] {
      var last := xs[|xs| - 1];
      RedactedMember(c, xs[..|xs| - 1], x);
      assert forall a :: a in xs <==> a in xs[..|xs| - 1] || a == last;
    }
  }

  lemma {:induction false} CriticalSorted(xs: seq<WriteEvent>)
    requires StrictlySorted(xs)
    ensures StrictlySorted(Critical(xs))
  {
    if xs != [] {
      var front, last := xs[..|xs| - 1], xs[|xs| - 1];
      CriticalSorted(front);
      forall x | x in Critical(front) ensures x.seqNo < last.seqNo {
        CriticalMember(front, x);
      }
    }
  }

  lemma {:induction false} ForRunSorted(xs: seq<WriteEvent>, r: string)
    requires StrictlySorted(xs)
    ensures StrictlySorted(ForRun(xs, r))
  {
    if xs != [] {
      var front, last := xs[..|xs| - 1], xs[|xs| - 1];
      ForRunSorted(front, r);
      forall x | x in ForRun(front, r) ensures x.seqNo < last.seqNo {
        assert x in front;
      }
    }
  }

  lemma {:induction false} RedactedSorted(c: Config, xs: seq<WriteEvent>)
    requires KeepsKeys(c) && StrictlySorted(xs)
    ensures StrictlySorted(Redacted(c, xs))
  {
    if xs != [] {
      var front, last := xs[..|xs| - 1], xs[|xs| - 1];
      RedactedSorted(c, front);
      assert KeyOf(c.redact(last)) == KeyOf(last);
      forall x | x in Redacted(c, front) ensures x.seqNo < last.seqNo {
        RedactedMember(c, front, x);
        var a :| a in front && x == c.redact(a);
        assert KeyOf(x) == KeyOf(a);
      }
    }
  }

  /** What a store should hold of a run: its critical events as issued, redacted. */
  function Expected(c: Config, issued: seq<WriteEvent>, r: string): seq<WriteEvent> {
    Redacted(c, ForRun(Critical(issued), r))
  }

  lemma ExpectedMember(c: Config, issued: seq<WriteEvent>, r: string, x: WriteEvent)
    ensures x in Expected(c, issued, r) <==>
            exists a :: a in issued && a.IsCritical() && a.runId == r && x == c.redact(a)
  {
    hide ForRun, Critical, Redacted;
    RedactedMember(c, ForRun(Critical(issued), r), x);
    forall a ensures a in ForRun(Critical(issued), r) <==> a in issued && a.IsCritical() && a.runId == r {
      CriticalMember(issued, a);
    }
  }

  lemma StoredIsExpected(c: Config, issued: seq<WriteEvent>, log: seq<WriteEvent>, r: string, x: WriteEvent)
    requires KeepsKeys(c) && AllClean(c, issued, log) && x in log && x.runId == r && x.IsCritical()
    ensures x in Expected(c, issued, r)
  {
    hide Expected;
    var a :| a in issued && x == c.redact(a);
    assert KeyOf(x) == KeyOf(a) && a.IsCritical();
    ExpectedMember(c, issued, r, x);
  }

  lemma ExpectedIsStored(c: Config, issued: seq<WriteEvent>, s: Pipe, r: string, x: WriteEvent)
    requires KeepsKeys(c) && Tracked(c, issued, s) && Accounted(s) && Drained(s) && x in Expected(c, issued, r)
    ensures x in LogOf(s.logs, r) && x.IsCritical()
  {
    hide Expected, CriticalKeys, Traced;
    ExpectedMember(c, issued, r, x);
    var a :| a in issued && a.IsCritical() && a.runId == r && x == c.redact(a);
    DrainedStored(s, KeyOf(a));
    var y :| y in LogOf(s.logs, r) && y.seqNo == a.seqNo;
    TracedClean(c, issued, s, r, y);
    var b :| b in issued && y == c.redact(b);
    assert KeyOf(y) == KeyOf(b) && KeyOf(x) == KeyOf(a);
    SameNumber(issued, a, b);
  }

  lemma TracedClean(c: Config, issued: seq<WriteEvent>, s: Pipe, r: string, y: WriteEvent)
    requires Traced(c, issued, s) && y in LogOf(s.logs, r)
    ensures Clean(c, issued, y)
  {
    hide Clean, AllDerived, AllClean, AllIn;
    assert LogClean(c, issued, s.logs, r);
  }

  lemma SameNumber(issued: seq<WriteEvent>, a: WriteEvent, b: WriteEvent)
    requires StrictlySorted(issued) && a in issued && b in issued && a.seqNo == b.seqNo
    ensures a == b
  {
  }

  lemma DrainedStored(s: Pipe, k: Key)
    requires Accounted(s) && Drained(s) && k in s.accepted
    ensures Stored(s.logs, k)
  {
  }

  /** In any interleaving, whatever failing writes had stored: once the pipeline has drained, the
      critical events in the log of a run are those issued for it, in the order of their numbers. */
  lemma DrainedLog(c: Config, actions: seq<Action>, r: string)
    requires KeepsKeys(c) && Idempotent(c) && Drained(Perform(c, actions))
    ensures Critical(LogOf(Perform(c, actions).logs, r)) == Expected(c, Issued(c, actions), r)
  {
    hide Perform, Issued, KeepsKeys, Idempotent, Drained, Expected, Traced, NoneForgotten, Numbered, Critical;
    var s, issued := Perform(c, actions), Issued(c, actions);
    RunTracked(c, actions);
    PipelineExactlyOnce(c, actions);
    var log, expected := LogOf(s.logs, r), Expected(c, issued, r);
    CriticalSorted(log);
    ExpectedSorted(c, issued, r);
    forall x ensures x in Critical(log) <==> x in expected {
      CriticalMember(log, x);
      if x in log && x.IsCritical() {
        LogTraced(c, issued, s, r);
        StoredIsExpected(c, issued, log, r, x);
      }
      if x in expected {
        ExpectedIsStored(c, issued, s, r, x);
      }
    }
    StrictlySortedUnique(Critical(log), expected);
  }

  lemma ExpectedSorted(c: Config, issued: seq<WriteEvent>, r: string)
    requires KeepsKeys(c) && StrictlySorted(issued)
    ensures StrictlySorted(Expected(c, issued, r))
  {
    hide KeepsKeys, StrictlySorted, Critical, ForRun, Redacted;
    CriticalSorted(issued);
    ForRunSorted(Critical(issued), r);
    RedactedSorted(c, ForRun(Critical(issued), r));
  }

  lemma LogTraced(c: Config, issued: seq<WriteEvent>, s: Pipe, r: string)
    requires Traced(c, issued, s)
    ensures AllClean(c, issued, LogOf(s.logs, r)) && forall x :: x in LogOf(s.logs, r) ==> x.runId == r
  {
    hide Clean, AllDerived, AllIn;
    assert LogClean(c, issued, s.logs, r);
  }

  // ---- The history read from the store ----

  /** Only critical events make history. */
  lemma {:induction false} ProjectCritical(log: seq<WriteEvent>, node: string)
    ensures Project(Critical(log), node) == Project(log, node)
  {
    hide Bare;
    if log != [] {
      var rest, last := Critical(log[..|log| - 1]), log[|log| - 1];
      ProjectCritical(log[..|log| - 1], node);
      assert (rest + [last])[..|rest|] == rest;
    }
  }

  /** Executions write their events in any interleaving, numbering and sending apart, over a store
      that may fail. Once the pipeline has drained, and if no attempt ended ambiguously in the order
      of numbers, the history read from the store is the attempts made, in the order they started. */
  lemma StoredRoundTrip(c: Config, actions: seq<Action>, r: string, xs: seq<Execution>, choices: seq<nat>, node: string)
    requires KeepsKeys(c) && Idempotent(c) && Drained(Perform(c, actions))
    requires var w := Interleave(xs, choices, node);
      AllFinished(w) && Project(Expected(c, Issued(c, actions), r), node) == Project(w.log, node)
    requires NeverAmbiguous(xs, choices, node)
    ensures var w, log := Interleave(xs, choices, node), LogOf(Perform(c, actions).logs, r);
      && |w.log| == |w.owners|
      && Tells(ObserveAll([], log, node), Starters(w.log, w.owners, node), xs, node)
  {
    hide Perform, Issued, KeepsKeys, Idempotent, Drained, Expected, Project, Critical, ObserveAll, Tells, Interleave;
    hide NeverAmbiguous, AllFinished, Starters;
    var log := LogOf(Perform(c, actions).logs, r);
    DrainedLog(c, actions, r);
    ProjectCritical(log, node);
    RoundTrip(xs, choices, node, log);
  }
}
