/** The write pipeline as interleaved steps: producers take sequence numbers and send, the flush
    loop drains, batches, writes, retries and re-buffers into a store that may fail. */
module Pipeline {
  import opened Events
  import opened Store

  // ---- State ----

  /** `Writing` is a flush under way: the redacted batch, and which attempt is running. */
  datatype Flush = Idle | Writing(events: seq<WriteEvent>, retry: bool)

  datatype Pipe = Pipe(
    nextSeq: nat,
    waiting: seq<WriteEvent>,
    waitingAdvisory: seq<WriteEvent>,
    critical: seq<WriteEvent>,
    advisory: seq<WriteEvent>,
    batch: seq<WriteEvent>,
    flush: Flush,
    logs: Logs,
    accepted: seq<Key>,
    written: seq<WriteEvent>)

  datatype Config = Config(criticalCapacity: nat, advisoryCapacity: nat, redact: WriteEvent -> WriteEvent)

  /** Redaction rewrites payloads; it keeps the kind of event and its key. */
  ghost predicate KeepsKeys(c: Config) {
    forall e :: KeyOf(c.redact(e)) == KeyOf(e) && c.redact(e).IsCritical() == e.IsCritical()
  }

  const INITIAL: Pipe := Pipe(1, [], [], [], [], [], Idle, map[], [], [])

  function Redacted(c: Config, s: seq<WriteEvent>): (r: seq<WriteEvent>)
    ensures |r| == |s| && forall i :: 0 <= i < |s| ==> r[i] == c.redact(s[i])
  {
    if s == [] then [] else Redacted(c, s[..|s| - 1]) + [c.redact(s[|s| - 1])]
  }

  function Critical(s: seq<WriteEvent>): seq<WriteEvent> {
    if s == [] then []
    else
      var rest, last := Critical(s[..|s| - 1]), s[|s| - 1];
      if last.IsCritical() then rest + [last] else rest
  }

  /** The events whose key a failing store had already taken. */
  function Kept(s: seq<WriteEvent>, keys: set<Key>): seq<WriteEvent> {
    if s == [] then []
    else
      var rest, last := Kept(s[..|s| - 1], keys), s[|s| - 1];
      if KeyOf(last) in keys then rest + [last] else rest
  }

  function Without<T>(s: seq<T>, i: nat): seq<T>
    requires i < |s|
  {
    s[..i] + s[i + 1..]
  }

  // ---- Steps ----

  datatype Action =
    | Allocate(event: WriteEvent)          // write(): take the next number
    | Send(i: nat)                         // write(): the bounded critical channel has room
    | AllocateAdvisory(event: WriteEvent)  // try_write(): take the next number
    | TrySend(i: nat)                      // try_write(): send, or drop when the channel is full
    | Receive                              // flush loop takes one critical event
    | ReceiveAdvisory                      // flush loop takes one advisory event
    | BeginFlush                           // flush_batch: take the batch and redact it
    | StoreOk                              // write_batch returned Ok
    | StoreFails(taken: set<Key>)          // write_batch returned Err, having stored these

  /** `write` is used for critical events and `try_write` for the others. */
  predicate Enabled(c: Config, s: Pipe, a: Action) {
    match a
    case Allocate(e) => e.IsCritical()
    case Send(i) => i < |s.waiting| && |s.critical| < c.criticalCapacity
    case AllocateAdvisory(e) => !e.IsCritical()
    case TrySend(i) => i < |s.waitingAdvisory|
    case Receive => s.critical != [] && s.flush.Idle?
    case ReceiveAdvisory => s.advisory != [] && s.flush.Idle?
    case BeginFlush => s.batch != [] && s.flush.Idle?
    case StoreOk => s.flush.Writing?
    case StoreFails(_) => s.flush.Writing?
  }

  function Do(c: Config, s: Pipe, a: Action): Pipe
    requires Enabled(c, s, a)
  {
    match a
    case Allocate(e) => s.(nextSeq := s.nextSeq + 1, waiting := s.waiting + [e.Numbered(s.nextSeq)])
    case Send(i) =>
      s.(waiting := Without(s.waiting, i), critical := s.critical + [s.waiting[i]],
         accepted := s.accepted + [KeyOf(s.waiting[i])])
    case AllocateAdvisory(e) =>
      s.(nextSeq := s.nextSeq + 1, waitingAdvisory := s.waitingAdvisory + [e.Numbered(s.nextSeq)])
    case TrySend(i) =>
      s.(waitingAdvisory := Without(s.waitingAdvisory, i),
         advisory := if |s.advisory| < c.advisoryCapacity then s.advisory + [s.waitingAdvisory[i]] else s.advisory)
    case Receive => s.(critical := s.critical[1..], batch := s.batch + [s.critical[0]])
    case ReceiveAdvisory => s.(advisory := s.advisory[1..], batch := s.batch + [s.advisory[0]])
    case BeginFlush => s.(batch := [], flush := Writing(Redacted(c, s.batch), false))
    case StoreOk =>
      s.(flush := Idle, logs := MemWrite(s.logs, s.flush.events), written := s.written + s.flush.events)
    case StoreFails(taken) =>
      var part := Kept(s.flush.events, taken);
      var s1 := s.(logs := MemWrite(s.logs, part), written := s.written + part);
      if s.flush.retry then s1.(flush := Idle, batch := s.batch + Critical(s.flush.events))
      else s1.(flush := Writing(s.flush.events, true))
  }

  /** Any interleaving; a step that is not enabled changes nothing. */
  function Perform(c: Config, actions: seq<Action>): Pipe {
    if actions == [] then INITIAL
    else
      var s, a := Perform(c, actions[..|actions| - 1]), actions[|actions| - 1];
      if Enabled(c, s, a) then Do(c, s, a) else s
  }

  // ---- First in, first out ----

  function CriticalKeys(s: seq<WriteEvent>): seq<Key> {
    if s == [] then []
    else
      var rest, last := CriticalKeys(s[..|s| - 1]), s[|s| - 1];
      if last.IsCritical() then rest + [KeyOf(last)] else rest
  }

  lemma {:induction false} CriticalKeysConcat(a: seq<WriteEvent>, b: seq<WriteEvent>)
    ensures CriticalKeys(a + b) == CriticalKeys(a) + CriticalKeys(b)
  {
    if b == [] {
      assert a + b == a;
    } else {
      CriticalKeysConcat(a, b[..|b| - 1]);
      assert (a + b)[..|a + b| - 1] == a + b[..|b| - 1];
    }
  }

  lemma CriticalKeysOne(e: WriteEvent)
    ensures CriticalKeys([e]) == if e.IsCritical() then [KeyOf(e)] else []
  {
  }

  lemma {:induction false} CriticalKeysRedacted(c: Config, s: seq<WriteEvent>)
    requires KeepsKeys(c)
    ensures CriticalKeys(Redacted(c, s)) == CriticalKeys(s)
  {
    if s != [] {
      CriticalKeysRedacted(c, s[..|s| - 1]);
      var r := Redacted(c, s);
      assert r[..|r| - 1] == Redacted(c, s[..|s| - 1]);
    }
  }

  lemma {:induction false} CriticalKeysCritical(s: seq<WriteEvent>)
    ensures CriticalKeys(Critical(s)) == CriticalKeys(s)
  {
    if s != [] {
      CriticalKeysCritical(s[..|s| - 1]);
      var rest, last := Critical(s[..|s| - 1]), s[|s| - 1];
      assert (rest + [last])[..|rest|] == rest;
    }
  }

  function InFlush(s: Pipe): seq<WriteEvent> { if s.flush.Writing? then s.flush.events else [] }

  /** Critical writes accepted so far, in order: what the store has taken, then what is being
      written, then what is batched, then what is still in the channel. */
  ghost predicate Fifo(s: Pipe) {
    && s.accepted == CriticalKeys(s.written) + CriticalKeys(InFlush(s)) + CriticalKeys(s.batch) +
      CriticalKeys(s.critical)
    && (s.flush.Writing? ==> s.batch == [])
  }

  ghost predicate ChannelsTyped(s: Pipe) {
    && (forall e :: e in s.waiting || e in s.critical ==> e.IsCritical())
    && (forall e :: e in s.waitingAdvisory || e in s.advisory ==> !e.IsCritical())
  }

  /** Failing writes store nothing. */
  ghost predicate AllOrNothing(actions: seq<Action>) {
    forall a :: a in actions && a.StoreFails? ==> a.taken == {}
  }

  lemma DoTyped(c: Config, s: Pipe, a: Action)
    requires Enabled(c, s, a) && ChannelsTyped(s)
    ensures ChannelsTyped(Do(c, s, a))
  {
  }

  lemma {:induction false} KeptNothing(s: seq<WriteEvent>)
    ensures Kept(s, {}) == []
  {
    if s != [] {
      KeptNothing(s[..|s| - 1]);
    }
  }

  lemma ProducerFifo(c: Config, s: Pipe, a: Action)
    requires Enabled(c, s, a) && ChannelsTyped(s) && Fifo(s)
    requires a.Allocate? || a.Send? || a.AllocateAdvisory? || a.TrySend?
    ensures Fifo(Do(c, s, a))
  {
    hide CriticalKeys, MemWrite;
    if a.Send? {
      var e := s.waiting[a.i];
      assert e in s.waiting;
      CriticalKeysConcat(s.critical, [e]);
      CriticalKeysOne(e);
    }
  }

  lemma ReceiveFifo(c: Config, s: Pipe, a: Action)
    requires Enabled(c, s, a) && ChannelsTyped(s) && Fifo(s) && (a.Receive? || a.ReceiveAdvisory?)
    ensures Fifo(Do(c, s, a))
  {
    hide CriticalKeys, MemWrite;
    var e := if a.Receive? then s.critical[0] else s.advisory[0];
    assert e in s.critical || e in s.advisory;
    CriticalKeysConcat(s.batch, [e]);
    CriticalKeysOne(e);
    if a.Receive? {
      assert s.critical == [e] + s.critical[1..];
      CriticalKeysConcat([e], s.critical[1..]);
    }
  }

  lemma MoveEmpty(w: seq<Key>, f: seq<Key>, d: seq<Key>)
    ensures w + [] + f + d == w + f + [] + d == w + f + d
  {
  }

  lemma BeginFifo(c: Config, s: Pipe)
    requires KeepsKeys(c) && Enabled(c, s, BeginFlush) && Fifo(s)
    ensures Fifo(Do(c, s, BeginFlush))
  {
    assert CriticalKeys([]) == [];
    CriticalKeysRedacted(c, s.batch);
    hide CriticalKeys, Redacted, KeepsKeys, MemWrite, Kept, Critical;
    var w, f, d := CriticalKeys(s.written), CriticalKeys(s.batch), CriticalKeys(s.critical);
    MoveEmpty(w, f, d);
    var s' := Do(c, s, BeginFlush);
    assert s'.written == s.written && InFlush(s') == Redacted(c, s.batch) && s'.batch == [];
  }

  lemma OkFifo(c: Config, s: Pipe)
    requires Enabled(c, s, StoreOk) && Fifo(s)
    ensures Fifo(Do(c, s, StoreOk))
  {
    assert CriticalKeys([]) == [];
    hide CriticalKeys, MemWrite;
    var w, f, d := CriticalKeys(s.written), CriticalKeys(s.flush.events), CriticalKeys(s.critical);
    CriticalKeysConcat(s.written, s.flush.events);
    assert w + f + [] + d == (w + f) + [] + [] + d;
  }

  lemma FailFifo(c: Config, s: Pipe)
    requires Enabled(c, s, StoreFails({})) && Fifo(s)
    ensures Fifo(Do(c, s, StoreFails({})))
  {
    assert CriticalKeys([]) == [];
    KeptNothing(s.flush.events);
    CriticalKeysCritical(s.flush.events);
    hide CriticalKeys, MemWrite, Kept, Critical;
    var w, f, d := CriticalKeys(s.written), CriticalKeys(s.flush.events), CriticalKeys(s.critical);
    MoveEmpty(w, f, d);
    var s' := Do(c, s, StoreFails({}));
    assert s'.written == s.written + [] == s.written;
    assert s.flush.retry ==> s'.batch == [] + Critical(s.flush.events) == Critical(s.flush.events);
  }

  /** Neither channel ever holds more than it has room for. */
  lemma {:induction false} ChannelsBounded(c: Config, actions: seq<Action>)
    ensures |Perform(c, actions).critical| <= c.criticalCapacity
    ensures |Perform(c, actions).advisory| <= c.advisoryCapacity
  {
    hide MemWrite, Kept, Redacted, Critical;
    if actions != [] {
      ChannelsBounded(c, actions[..|actions| - 1]);
    }
  }

  /** Critical events are never lost, duplicated or reordered on their way to an all-or-nothing
      store, in any interleaving of producers, drains, flushes, retries and failures. */
  lemma {:induction false} PipelineFifo(c: Config, actions: seq<Action>)
    requires KeepsKeys(c) && AllOrNothing(actions)
    ensures Fifo(Perform(c, actions)) && ChannelsTyped(Perform(c, actions))
  {
    if actions != [] {
      var front, a := actions[..|actions| - 1], actions[|actions| - 1];
      assert a in actions;
      PipelineFifo(c, front);
      var s := Perform(c, front);
      hide Fifo, Do, KeepsKeys;
      if Enabled(c, s, a) {
        DoTyped(c, s, a);
        if a.Allocate? || a.Send? || a.AllocateAdvisory? || a.TrySend? {
          ProducerFifo(c, s, a);
        } else if a.Receive? || a.ReceiveAdvisory? {
          ReceiveFifo(c, s, a);
        } else {
          match a {
            case BeginFlush => BeginFifo(c, s);
            case StoreOk => OkFifo(c, s);
            case StoreFails(_) => FailFifo(c, s);
          }
        }
      }
    }
  }
}
