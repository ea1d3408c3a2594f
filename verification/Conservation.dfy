/** Over stores that store all or nothing, an accepted critical event is in its log exactly when it
    is no longer on its way; what is still batched when the loop leaves is lost. */
module Conservation {
  import opened Events
  import opened Store
  import opened StoreLaws
  import opened Pipeline
  import opened ExactlyOnce

  // ---- Persisted numbers leave the pipeline ----

  /** A number is in the pipeline or has been persisted, not both, and at most once. */
  ghost predicate PersistedOnce(s: Pipe) {
    forall q: nat :: Load(s, q) + Occurs(s.written, q) <= if q < s.nextSeq then 1 else 0
  }

  ghost predicate HasKey(events: seq<WriteEvent>, k: Key) {
    exists e :: e in events && KeyOf(e) == k
  }

  /** What is in the logs has been persisted. */
  ghost predicate LogsWritten(s: Pipe) {
    forall k :: Stored(s.logs, k) ==> HasKey(s.written, k)
  }

  lemma StepWritten(c: Config, s: Pipe, a: Action, q: nat)
    requires Enabled(c, s, a) && (a.StoreFails? ==> a.taken == {})
    ensures Occurs(Do(c, s, a).written, q) == Occurs(s.written, q) + Persisted(s, a, q)
  {
    hide Occurs, MemWrite, Redacted, Critical, Kept;
    match a {
      case StoreOk => OccursConcat(s.written, s.flush.events, q);
      case StoreFails(_) =>
        KeptNothing(s.flush.events);
        assert s.written + [] == s.written;
      case _ =>
    }
  }

  lemma StepPersisted(c: Config, s: Pipe, a: Action)
    requires KeepsKeys(c) && Enabled(c, s, a) && PersistedOnce(s) && (a.StoreFails? ==> a.taken == {})
    ensures PersistedOnce(Do(c, s, a))
  {
    hide Load, Do, KeepsKeys, Occurs, Enabled, Persisted;
    NextNumber(c, s, a);
    forall q: nat
      ensures Load(Do(c, s, a), q) + Occurs(Do(c, s, a).written, q) <= if q < Do(c, s, a).nextSeq then 1 else 0
    {
      StepLoad(c, s, a, q);
      StepWritten(c, s, a, q);
    }
  }

  /** One write adds to the logs only what it is given. */
  lemma WriteAdds(logs: Logs, written: seq<WriteEvent>, events: seq<WriteEvent>, k: Key)
    requires Stored(MemWrite(logs, events), k) && (Stored(logs, k) ==> HasKey(written, k))
    ensures HasKey(written + events, k)
  {
    hide Stored, MemWrite, ForRun;
    WriteStores(logs, events, k);
    if Stored(logs, k) {
      var e :| e in written && KeyOf(e) == k;
      assert e in written + events;
    } else {
      var e :| e in ForRun(events, k.0) && e.seqNo == k.1;
      assert e in written + events && KeyOf(e) == k;
    }
  }

  lemma StepLogsWritten(c: Config, s: Pipe, a: Action)
    requires Enabled(c, s, a) && LogsWritten(s)
    ensures LogsWritten(Do(c, s, a))
  {
    hide Stored, HasKey, MemWrite, Redacted, Critical, Kept;
    var s' := Do(c, s, a);
    forall k | Stored(s'.logs, k) ensures HasKey(s'.written, k) {
      match a {
        case StoreOk => WriteAdds(s.logs, s.written, s.flush.events, k);
        case StoreFails(taken) => WriteAdds(s.logs, s.written, Kept(s.flush.events, taken), k);
        case _ =>
      }
    }
  }

  lemma NothingPersisted()
    ensures PersistedOnce(INITIAL) && LogsWritten(INITIAL)
  {
  }

  lemma {:induction false} RunPersisted(c: Config, actions: seq<Action>)
    requires KeepsKeys(c) && AllOrNothing(actions)
    ensures PersistedOnce(Perform(c, actions)) && LogsWritten(Perform(c, actions))
  {
    hide PersistedOnce, LogsWritten, Do, KeepsKeys, Enabled;
    if actions == [] {
      NothingPersisted();
    } else {
      var front, a := actions[..|actions| - 1], actions[|actions| - 1];
      assert a in actions;
      RunPersisted(c, front);
      if Enabled(c, Perform(c, front), a) {
        StepPersisted(c, Perform(c, front), a);
        StepLogsWritten(c, Perform(c, front), a);
      }
    }
  }

  // ---- Conservation ----

  lemma KeyOccurs(events: seq<WriteEvent>, k: Key)
    requires HasKey(events, k)
    ensures Occurs(events, k.1) >= 1
  {
    hide KeyOf;
    var e :| e in events && KeyOf(e) == k;
    KeyNumber(e, k);
    assert HasSeq(events, k.1);
    WithSeqMember(events, k.1);
  }

  lemma KeyNumber(e: WriteEvent, k: Key)
    requires KeyOf(e) == k
    ensures e.seqNo == k.1
  {
  }

  lemma BatchedOccurs(events: seq<WriteEvent>, k: Key)
    requires k in CriticalKeys(events)
    ensures Occurs(events, k.1) >= 1
  {
    hide CriticalKeys, Occurs;
    CriticalKeyMember(events, k);
    KeyOccurs(events, k);
  }

  /** What is batched is not stored. */
  lemma BatchedNotStored(c: Config, actions: seq<Action>, k: Key)
    requires KeepsKeys(c) && AllOrNothing(actions)
    requires k in CriticalKeys(Perform(c, actions).batch)
    ensures !Stored(Perform(c, actions).logs, k)
  {
    hide Perform, KeepsKeys, AllOrNothing, CriticalKeys, Occurs, Stored, HasKey;
    var s := Perform(c, actions);
    RunPersisted(c, actions);
    BatchedOccurs(s.batch, k);
    assert Load(s, k.1) + Occurs(s.written, k.1) <= 1;
    if Stored(s.logs, k) {
      KeyOccurs(s.written, k);
    }
  }

  /** Between flushes, over stores that store all or nothing, every accepted critical event is in
      exactly one place: its log, the batch, or the channel. */
  lemma ConservedExactly(c: Config, actions: seq<Action>, k: Key)
    requires KeepsKeys(c) && AllOrNothing(actions)
    requires Perform(c, actions).flush.Idle? && k in Perform(c, actions).accepted
    ensures var s := Perform(c, actions);
      Stored(s.logs, k) <==> k !in CriticalKeys(s.batch) && k !in CriticalKeys(s.critical)
  {
    hide Perform, KeepsKeys, AllOrNothing, CriticalKeys, Occurs, Stored, HasKey, Numbered, LogsOnce, ChannelsTyped;
    var s := Perform(c, actions);
    PipelineExactlyOnce(c, actions);
    RunPersisted(c, actions);
    NoKeys();
    assert Stored(s.logs, k) || OnTheWay(s, k);
    if k in CriticalKeys(s.batch) {
      BatchedNotStored(c, actions, k);
    }
    if k in CriticalKeys(s.critical) {
      QueuedNotStored(s, k);
    }
  }

  lemma QueuedNotStored(s: Pipe, k: Key)
    requires PersistedOnce(s) && LogsWritten(s) && k in CriticalKeys(s.critical)
    ensures !Stored(s.logs, k)
  {
    hide CriticalKeys, Occurs, Stored, HasKey;
    BatchedOccurs(s.critical, k);
    assert Load(s, k.1) + Occurs(s.written, k.1) <= 1;
    if Stored(s.logs, k) {
      KeyOccurs(s.written, k);
    }
  }

  lemma NoKeys()
    ensures CriticalKeys([]) == []
  {
  }

  // ---- A run that loses an event ----

  lemma PerformNext(c: Config, actions: seq<Action>, a: Action)
    requires Enabled(c, Perform(c, actions), a)
    ensures Perform(c, actions + [a]) == Do(c, Perform(c, actions), a)
  {
    hide Do, Enabled;
    assert (actions + [a])[..|actions|] == actions;
  }

  /** An event on its way through the loop, from the channel to a flush. */
  lemma SentToFlush(c: Config, e: WriteEvent)
    requires e.IsCritical() && c.criticalCapacity > 0
    ensures var n := e.Numbered(1);
      Perform(c, [] + [Allocate(e)] + [Send(0)] + [Receive] + [BeginFlush]) ==
      Pipe(2, [], [], [], [], [], Writing(Redacted(c, [n]), false), map[], [KeyOf(n)], [])
  {
    hide Perform, Redacted, KeyOf, MemWrite, Critical, Kept;
    var n := e.Numbered(1);
    var sent := [] + [Allocate(e)] + [Send(0)];
    AllocatedAndSent(c, e);
    PerformNext(c, sent, Receive);
    assert Perform(c, sent + [Receive]) == Pipe(2, [], [], [], [], [n], Idle, map[], [KeyOf(n)], []);
    PerformNext(c, sent + [Receive], BeginFlush);
  }

  lemma AllocatedAndSent(c: Config, e: WriteEvent)
    requires e.IsCritical() && c.criticalCapacity > 0
    ensures var n := e.Numbered(1);
      Perform(c, [] + [Allocate(e)] + [Send(0)]) == Pipe(2, [], [], [n], [], [], Idle, map[], [KeyOf(n)], [])
  {
    hide Perform, Redacted, KeyOf, MemWrite, Critical, Kept;
    var n := e.Numbered(1);
    NothingPerformed(c);
    PerformNext(c, [], Allocate(e));
    assert Perform(c, [] + [Allocate(e)]) == Pipe(2, [n], [], [], [], [], Idle, map[], [], []);
    PerformNext(c, [] + [Allocate(e)], Send(0));
  }

  lemma NothingPerformed(c: Config)
    ensures Perform(c, []) == INITIAL
  {
  }

  lemma FailsTwice(c: Config, s: Pipe, actions: seq<Action>)
    requires s == Perform(c, actions) && s.flush.Writing? && !s.flush.retry
    ensures Perform(c, actions + [StoreFails({})] + [StoreFails({})]) ==
            s.(flush := Idle, batch := s.batch + Critical(s.flush.events), logs := MemWrite(MemWrite(s.logs, []), []))
  {
    hide MemWrite, Critical, Kept, Redacted;
    KeptNothing(s.flush.events);
    PerformNext(c, actions, StoreFails({}));
    PerformNext(c, actions + [StoreFails({})], StoreFails({}));
    assert s.written + [] + [] == s.written;
  }

  lemma OneRedacted(c: Config, e: WriteEvent)
    requires KeepsKeys(c) && e.IsCritical()
    ensures Critical(Redacted(c, [e])) == [c.redact(e)]
  {
    assert [e][..0] == [] && [c.redact(e)][..0] == [];
    assert Redacted(c, [e]) == [] + [c.redact(e)];
  }

  lemma NeverStored(k: Key)
    ensures !Stored(MemWrite(MemWrite(map[], []), []), k)
  {
    hide MemWrite;
    var none: Logs := map[];
    WriteStores(none, [], k);
    WriteStores(MemWrite(none, []), [], k);
  }

  /** One event is written, and the final flush fails twice: the event was accepted, is in no log,
      and is left in the batch, which the loop drops when it leaves. */
  lemma LostAtExit(c: Config, e: WriteEvent)
    requires KeepsKeys(c) && e.IsCritical() && c.criticalCapacity > 0
    ensures var s := Perform(c, [Allocate(e), Send(0), Receive, BeginFlush, StoreFails({}), StoreFails({})]);
      && s.flush.Idle? && s.critical == [] && s.accepted == [(e.runId, 1)]
      && s.batch == [c.redact(e.Numbered(1))] && !Stored(s.logs, (e.runId, 1))
  {
    hide Perform, MemWrite, Critical, Redacted, Stored, KeepsKeys;
    var n := e.Numbered(1);
    var sent := [] + [Allocate(e)] + [Send(0)] + [Receive] + [BeginFlush];
    SentToFlush(c, e);
    FailsTwice(c, Perform(c, sent), sent);
    OneRedacted(c, n);
    NeverStored((e.runId, 1));
    assert sent + [StoreFails({})] + [StoreFails({})] ==
           [Allocate(e), Send(0), Receive, BeginFlush, StoreFails({}), StoreFails({})];
  }
}
