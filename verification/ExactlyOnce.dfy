/** Over a deduplicating store, retries and re-buffering never store an event twice and never
    lose a critical one, even when a failing write had already stored part of its batch. */
module ExactlyOnce {
  import opened Events
  import opened Store
  import opened StoreLaws
  import opened Pipeline

  // ---- Sequence numbers in the pipeline ----

  function Occurs(s: seq<WriteEvent>, q: nat): nat { |WithSeq(s, q)| }

  lemma {:induction false} OccursConcat(a: seq<WriteEvent>, b: seq<WriteEvent>, q: nat)
    ensures Occurs(a + b, q) == Occurs(a, q) + Occurs(b, q)
  {
    if b == [] {
      assert a + b == a;
    } else {
      OccursConcat(a, b[..|b| - 1], q);
      assert (a + b)[..|a + b| - 1] == a + b[..|b| - 1];
    }
  }

  lemma OccursSnoc(s: seq<WriteEvent>, e: WriteEvent, q: nat)
    ensures Occurs(s + [e], q) == Occurs(s, q) + if e.seqNo == q then 1 else 0
  {
  }

  lemma OccursWithout(s: seq<WriteEvent>, i: nat, q: nat)
    requires i < |s|
    ensures Occurs(s, q) == Occurs(Without(s, i), q) + if s[i].seqNo == q then 1 else 0
  {
    hide Occurs;
    assert s == s[..i] + [s[i]] + s[i + 1..];
    OccursConcat(s[..i] + [s[i]], s[i + 1..], q);
    OccursSnoc(s[..i], s[i], q);
    OccursConcat(s[..i], s[i + 1..], q);
  }

  lemma {:induction false} OccursRedacted(c: Config, s: seq<WriteEvent>, q: nat)
    requires KeepsKeys(c)
    ensures Occurs(Redacted(c, s), q) == Occurs(s, q)
  {
    if s != [] {
      OccursRedacted(c, s[..|s| - 1], q);
      var r := Redacted(c, s);
      assert r[..|r| - 1] == Redacted(c, s[..|s| - 1]);
      assert KeyOf(c.redact(s[|s| - 1])) == KeyOf(s[|s| - 1]);
    }
  }

  lemma {:induction false} OccursCritical(s: seq<WriteEvent>, q: nat)
    ensures Occurs(Critical(s), q) <= Occurs(s, q)
  {
    if s != [] {
      OccursCritical(s[..|s| - 1], q);
      OccursSnoc(Critical(s[..|s| - 1]), s[|s| - 1], q);
    }
  }

  lemma {:induction false} OccursKept(s: seq<WriteEvent>, keys: set<Key>, q: nat)
    ensures Occurs(Kept(s, keys), q) <= Occurs(s, q)
  {
    if s != [] {
      OccursKept(s[..|s| - 1], keys, q);
      OccursSnoc(Kept(s[..|s| - 1], keys), s[|s| - 1], q);
    }
  }

  /** How often a number occurs anywhere between its allocation and the store. */
  function Load(s: Pipe, q: nat): nat {
    Occurs(InFlush(s), q) + Occurs(s.batch, q) + Occurs(s.critical, q) + Occurs(s.advisory, q)
    + Occurs(s.waiting, q) + Occurs(s.waitingAdvisory, q)
  }

  /** Numbers are unique in the pipeline, and those not yet allocated do not occur. */
  ghost predicate Numbered(s: Pipe) {
    forall q: nat :: Load(s, q) <= if q < s.nextSeq then 1 else 0
  }

  /** A number allocated by this step. */
  function Allocated(s: Pipe, a: Action, q: nat): nat {
    if (a.Allocate? || a.AllocateAdvisory?) && q == s.nextSeq then 1 else 0
  }

  /** A number that leaves the pipeline because the store has taken it. */
  function Persisted(s: Pipe, a: Action, q: nat): nat {
    if a.StoreOk? && s.flush.Writing? then Occurs(s.flush.events, q) else 0
  }

  lemma ProducerLoad(c: Config, s: Pipe, a: Action, q: nat)
    requires Enabled(c, s, a) && (a.Allocate? || a.Send? || a.AllocateAdvisory? || a.TrySend?)
    ensures Load(Do(c, s, a), q) <= Load(s, q) + Allocated(s, a, q)
  {
    hide Occurs, MemWrite, Redacted, Critical, Kept;
    match a {
      case Allocate(e) => OccursSnoc(s.waiting, e.Numbered(s.nextSeq), q);
      case AllocateAdvisory(e) => OccursSnoc(s.waitingAdvisory, e.Numbered(s.nextSeq), q);
      case Send(i) =>
        OccursWithout(s.waiting, i, q);
        OccursSnoc(s.critical, s.waiting[i], q);
      case TrySend(i) =>
        OccursWithout(s.waitingAdvisory, i, q);
        OccursSnoc(s.advisory, s.waitingAdvisory[i], q);
    }
  }

  lemma DrainLoad(c: Config, s: Pipe, a: Action, q: nat)
    requires Enabled(c, s, a) && (a.Receive? || a.ReceiveAdvisory?)
    ensures Load(Do(c, s, a), q) <= Load(s, q)
  {
    hide Occurs, MemWrite, Redacted, Critical, Kept;
    match a {
      case Receive =>
        OccursWithout(s.critical, 0, q);
        assert Without(s.critical, 0) == s.critical[1..];
        OccursSnoc(s.batch, s.critical[0], q);
      case ReceiveAdvisory =>
        OccursWithout(s.advisory, 0, q);
        assert Without(s.advisory, 0) == s.advisory[1..];
        OccursSnoc(s.batch, s.advisory[0], q);
    }
  }

  lemma OccursNone(q: nat)
    ensures Occurs([], q) == 0
  {
  }

  lemma FlushLoad(c: Config, s: Pipe, a: Action, q: nat)
    requires KeepsKeys(c) && Enabled(c, s, a) && (a.BeginFlush? || a.StoreOk? || a.StoreFails?)
    ensures Load(Do(c, s, a), q) + Persisted(s, a, q) <= Load(s, q)
  {
    hide Occurs, MemWrite, Redacted, Critical, Kept, KeepsKeys;
    OccursNone(q);
    match a {
      case BeginFlush => OccursRedacted(c, s.batch, q);
      case StoreOk =>
      case StoreFails(_) =>
        OccursCritical(s.flush.events, q);
        OccursConcat(s.batch, Critical(s.flush.events), q);
    }
  }

  /** Steps add a number only when it is allocated, and drop what the store has taken. */
  lemma StepLoad(c: Config, s: Pipe, a: Action, q: nat)
    requires KeepsKeys(c) && Enabled(c, s, a)
    ensures Load(Do(c, s, a), q) + Persisted(s, a, q) <= Load(s, q) + Allocated(s, a, q)
  {
    hide Load, Do, KeepsKeys, Occurs, Enabled;
    if a.BeginFlush? || a.StoreOk? || a.StoreFails? {
      FlushLoad(c, s, a, q);
    } else if a.Receive? || a.ReceiveAdvisory? {
      DrainLoad(c, s, a, q);
    } else {
      ProducerLoad(c, s, a, q);
    }
  }

  lemma NextNumber(c: Config, s: Pipe, a: Action)
    requires Enabled(c, s, a)
    ensures Do(c, s, a).nextSeq == s.nextSeq + if a.Allocate? || a.AllocateAdvisory? then 1 else 0
  {
    hide MemWrite, Redacted, Critical, Kept;
  }

  lemma StepNumbered(c: Config, s: Pipe, a: Action)
    requires KeepsKeys(c) && Enabled(c, s, a) && Numbered(s)
    ensures Numbered(Do(c, s, a))
  {
    hide Load, Do, KeepsKeys, Occurs, Enabled;
    NextNumber(c, s, a);
    forall q: nat ensures Load(Do(c, s, a), q) <= if q < Do(c, s, a).nextSeq then 1 else 0 {
      StepLoad(c, s, a, q);
    }
  }

  // ---- The store ----

  ghost predicate Stored(logs: Logs, k: Key) { HasSeq(LogOf(logs, k.0), k.1) }

  /** No log repeats a sequence number. */
  ghost predicate LogsOnce(logs: Logs) { forall r :: StrictlySorted(LogOf(logs, r)) }

  lemma DistinctNoRepeats(s: seq<WriteEvent>)
    requires DistinctSeqs(s)
    ensures NoRepeats(s)
  {
  }

  /** Writing events with distinct numbers stores each of them, once, and forgets nothing. */
  lemma WriteOnce(logs: Logs, batch: seq<WriteEvent>)
    requires LogsOnce(logs) && DistinctSeqs(batch)
    ensures var logs' := MemWrite(logs, batch);
      && LogsOnce(logs')
      && (forall k :: Stored(logs, k) ==> Stored(logs', k))
      && (forall e :: e in batch ==> Stored(logs', KeyOf(e)))
  {
    hide MemWrite, RunIds, Appended;
    DistinctNoRepeats(batch);
    var logs' := MemWrite(logs, batch);
    forall r ensures StrictlySorted(LogOf(logs', r)) {
      var log := LogOf(logs, r);
      ForRunDistinct(batch, r);
      UnseenDistinct(log, ForRun(batch, r));
      DedupExact(log, ForRun(batch, r));
    }
    forall k: Key ensures Stored(logs', k) <==> Stored(logs, k) || HasSeq(ForRun(batch, k.0), k.1) {
      WriteStores(logs, batch, k);
    }
  }

  lemma WriteStores(logs: Logs, batch: seq<WriteEvent>, k: Key)
    ensures Stored(MemWrite(logs, batch), k) <==> Stored(logs, k) || HasSeq(ForRun(batch, k.0), k.1)
  {
    hide MemWrite, RunIds, Appended, ForRun;
    var log, added := LogOf(logs, k.0), ForRun(batch, k.0);
    if k.0 in RunIds(batch) {
      forall x ensures x in Appended(log, added) <==> x in log || (x in added && !HasSeq(log, x.seqNo)) {
        AppendedContents(log, added, x);
      }
    }
  }

  lemma FlushDistinct(s: Pipe, part: seq<WriteEvent>)
    requires Numbered(s) && forall q: nat :: Occurs(part, q) <= Occurs(InFlush(s), q)
    ensures DistinctSeqs(part)
  {
    DistinctIffOnce(part);
    hide DistinctSeqs;
    forall q: nat ensures |WithSeq(part, q)| <= 1 {
      assert Occurs(part, q) <= Occurs(InFlush(s), q) <= Load(s, q) <= 1;
    }
  }

  // ---- Accounting for accepted critical events ----

  ghost predicate OnTheWay(s: Pipe, k: Key) {
    k in CriticalKeys(InFlush(s)) || k in CriticalKeys(s.batch) || k in CriticalKeys(s.critical)
  }

  ghost predicate Accounted(s: Pipe) {
    forall k :: k in s.accepted ==> Stored(s.logs, k) || OnTheWay(s, k)
  }

  lemma ProducerAccounted(c: Config, s: Pipe, a: Action)
    requires Enabled(c, s, a) && ChannelsTyped(s) && Accounted(s)
    requires a.Allocate? || a.Send? || a.AllocateAdvisory? || a.TrySend?
    ensures Accounted(Do(c, s, a))
  {
  }

  lemma DrainAccounted(c: Config, s: Pipe, a: Action)
    requires KeepsKeys(c) && Enabled(c, s, a) && ChannelsTyped(s) && Accounted(s)
    requires a.Receive? || a.ReceiveAdvisory? || a.BeginFlush?
    ensures Accounted(Do(c, s, a))
  {
    hide CriticalKeys, Stored, MemWrite, KeepsKeys, Redacted;
    match a {
      case Receive =>
        var e := s.critical[0];
        assert e in s.critical && s.critical == [e] + s.critical[1..];
        CriticalKeysConcat([e], s.critical[1..]);
        CriticalKeysConcat(s.batch, [e]);
      case ReceiveAdvisory =>
        CriticalKeysConcat(s.batch, [s.advisory[0]]);
      case BeginFlush =>
        CriticalKeysRedacted(c, s.batch);
    }
  }

  lemma {:induction false} CriticalKeyMember(s: seq<WriteEvent>, k: Key)
    requires k in CriticalKeys(s)
    ensures exists e :: e in s && KeyOf(e) == k
  {
    var last := s[|s| - 1];
    if last.IsCritical() && KeyOf(last) == k {
      assert last in s;
    } else {
      CriticalKeyMember(s[..|s| - 1], k);
      var e :| e in s[..|s| - 1] && KeyOf(e) == k;
      assert e in s;
    }
  }

  lemma OkAccounted(c: Config, s: Pipe)
    requires Enabled(c, s, StoreOk) && Accounted(s) && LogsOnce(s.logs) && DistinctSeqs(s.flush.events)
    ensures Accounted(Do(c, s, StoreOk)) && LogsOnce(Do(c, s, StoreOk).logs)
  {
    hide CriticalKeys, Stored, MemWrite, DistinctSeqs, LogsOnce;
    WriteOnce(s.logs, s.flush.events);
    forall k | k in CriticalKeys(s.flush.events) ensures Stored(MemWrite(s.logs, s.flush.events), k) {
      CriticalKeyMember(s.flush.events, k);
    }
  }

  lemma FailAccounted(c: Config, s: Pipe, taken: set<Key>)
    requires Enabled(c, s, StoreFails(taken)) && Accounted(s) && LogsOnce(s.logs)
    requires DistinctSeqs(Kept(s.flush.events, taken))
    ensures var s' := Do(c, s, StoreFails(taken)); Accounted(s') && LogsOnce(s'.logs)
  {
    hide CriticalKeys, Stored, MemWrite, DistinctSeqs, LogsOnce, Kept, Critical;
    WriteOnce(s.logs, Kept(s.flush.events, taken));
    CriticalKeysConcat(s.batch, Critical(s.flush.events));
    CriticalKeysCritical(s.flush.events);
  }

  // ---- Whole runs ----

  ghost predicate Good(s: Pipe) {
    ChannelsTyped(s) && Numbered(s) && LogsOnce(s.logs) && Accounted(s)
  }

  lemma StoreGood(c: Config, s: Pipe, a: Action)
    requires KeepsKeys(c) && Good(s) && Enabled(c, s, a) && (a.StoreOk? || a.StoreFails?)
    ensures Good(Do(c, s, a))
  {
    hide Numbered, LogsOnce, Accounted, ChannelsTyped, Do, KeepsKeys, Kept;
    DoTyped(c, s, a);
    StepNumbered(c, s, a);
    match a {
      case StoreOk =>
        FlushDistinct(s, s.flush.events);
        OkAccounted(c, s);
      case StoreFails(taken) =>
        forall q: nat ensures Occurs(Kept(s.flush.events, taken), q) <= Occurs(InFlush(s), q) {
          OccursKept(s.flush.events, taken, q);
        }
        FlushDistinct(s, Kept(s.flush.events, taken));
        FailAccounted(c, s, taken);
    }
  }

  lemma StepGood(c: Config, s: Pipe, a: Action)
    requires KeepsKeys(c) && Good(s) && Enabled(c, s, a)
    ensures Good(Do(c, s, a))
  {
    hide Numbered, Accounted, ChannelsTyped, KeepsKeys, MemWrite, Redacted, Critical, Kept, LogsOnce;
    if a.StoreOk? || a.StoreFails? {
      StoreGood(c, s, a);
    } else {
      DoTyped(c, s, a);
      StepNumbered(c, s, a);
      if a.Receive? || a.ReceiveAdvisory? || a.BeginFlush? {
        DrainAccounted(c, s, a);
      } else {
        ProducerAccounted(c, s, a);
      }
    }
  }

  /** In every interleaving, whatever part of a batch a failing write had stored: no log repeats a
      sequence number, and every accepted critical event is stored or on its way to the store. */
  lemma {:induction false} PipelineExactlyOnce(c: Config, actions: seq<Action>)
    requires KeepsKeys(c)
    ensures Good(Perform(c, actions))
  {
    hide Good, Do, KeepsKeys;
    if actions == [] {
      InitialGood();
    } else {
      var front, a := actions[..|actions| - 1], actions[|actions| - 1];
      PipelineExactlyOnce(c, front);
      if Enabled(c, Perform(c, front), a) {
        StepGood(c, Perform(c, front), a);
      }
    }
  }

  lemma InitialGood()
    ensures Good(INITIAL)
  {
  }

  /** Once the pipeline has drained, every accepted critical event is in its run's log exactly
      once, and every event at all, advisory ones included, at most once. */
  lemma DrainedExactlyOnce(c: Config, actions: seq<Action>)
    requires KeepsKeys(c)
    requires var s := Perform(c, actions); s.flush.Idle? && s.batch == [] && s.critical == []
    ensures var s := Perform(c, actions);
      && (forall k :: k in s.accepted ==> Occurs(LogOf(s.logs, k.0), k.1) == 1)
      && (forall r, q: nat :: Occurs(LogOf(s.logs, r), q) <= 1)
  {
    PipelineExactlyOnce(c, actions);
    assert CriticalKeys([]) == [];
    hide Perform, Numbered, WithSeq, CriticalKeys;
    var s := Perform(c, actions);
    forall r, q: nat ensures Occurs(LogOf(s.logs, r), q) <= 1 {
      StrictOnce(LogOf(s.logs, r), q);
    }
    forall k | k in s.accepted ensures Occurs(LogOf(s.logs, k.0), k.1) == 1 {
      assert Stored(s.logs, k);
      WithSeqMember(LogOf(s.logs, k.0), k.1);
      assert Occurs(LogOf(s.logs, k.0), k.1) <= 1;
    }
  }

  lemma StrictOnce(log: seq<WriteEvent>, q: nat)
    requires StrictlySorted(log)
    ensures Occurs(log, q) <= 1
  {
    DistinctIffOnce(log);
    assert DistinctSeqs(log) && AtMostOnce(log);
  }
}
