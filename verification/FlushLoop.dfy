/** The flush loop as it is written, over mutable channels and a mutable batch, with producers
    free to act between any two of its operations. Each operation is a step of the pipeline. */
module FlushLoop {
  import opened Events
  import opened Store
  import opened StoreLaws
  import opened Pipeline
  import opened ExactlyOnce
  import opened Conservation

  predicate ByProducer(a: Action) { a.Allocate? || a.Send? || a.AllocateAdvisory? || a.TrySend? }

  /** What the loop itself has done, leaving out what producers did meanwhile. */
  function LoopActions(trace: seq<Action>): seq<Action> {
    if trace == [] then []
    else
      var rest, last := LoopActions(trace[..|trace| - 1]), trace[|trace| - 1];
      if ByProducer(last) then rest else rest + [last]
  }

  lemma LoopActionsSnoc(trace: seq<Action>, a: Action)
    ensures LoopActions(trace + [a]) == if ByProducer(a) then LoopActions(trace) else LoopActions(trace) + [a]
  {
  }

  ghost predicate AllReceives(xs: seq<Action>) { forall x :: x in xs ==> x.Receive? || x.ReceiveAdvisory? }

  /** The actions of one flush: a write that succeeds, at once or on the retry, or fails twice. */
  ghost predicate IsFlush(xs: seq<Action>) {
    || xs == [BeginFlush, StoreOk]
    || (|xs| == 3 && xs[0] == BeginFlush && xs[1].StoreFails? && (xs[2].StoreOk? || xs[2].StoreFails?))
  }

  /** The last thing the loop did was to fail to write for the second time. */
  ghost predicate GaveUp(trace: seq<Action>) {
    var xs := LoopActions(trace);
    |xs| >= 3 && IsFlush(xs[|xs| - 3..]) && xs[|xs| - 1].StoreFails?
  }

  lemma FailedFlush(done: seq<Action>, trace: seq<Action>)
    requires done <= LoopActions(trace) && IsFlush(LoopActions(trace)[|done|..])
    requires var xs := LoopActions(trace); |xs| > 0 && xs[|xs| - 1].StoreFails?
    ensures GaveUp(trace)
  {
  }

  ghost predicate StillStored(logs: Logs, logs': Logs) { forall k :: Stored(logs, k) ==> Stored(logs', k) }

  ghost predicate AllStored(logs: Logs, events: seq<WriteEvent>) { forall e :: e in events ==> Stored(logs, KeyOf(e)) }

  lemma WriteStillStored(logs: Logs, batch: seq<WriteEvent>)
    ensures StillStored(logs, MemWrite(logs, batch)) && AllStored(MemWrite(logs, batch), batch)
  {
    hide Stored, MemWrite;
    forall k: Key ensures Stored(MemWrite(logs, batch), k) <==> Stored(logs, k) || HasSeq(ForRun(batch, k.0), k.1) {
      WriteStores(logs, batch, k);
    }
  }

  lemma FlushedStored(c: Config, logs: Logs, batch: seq<WriteEvent>)
    requires KeepsKeys(c) && AllStored(logs, Redacted(c, batch))
    ensures forall k :: k in CriticalKeys(batch) ==> Stored(logs, k)
  {
    hide KeepsKeys, CriticalKeys, Redacted, Stored;
    CriticalKeysRedacted(c, batch);
    forall k | k in CriticalKeys(batch) ensures Stored(logs, k) {
      CriticalKeyMember(Redacted(c, batch), k);
    }
  }

  lemma KeysGrow(a: seq<WriteEvent>, b: seq<WriteEvent>)
    requires a <= b
    ensures CriticalKeys(a) <= CriticalKeys(b)
  {
    CriticalKeysConcat(a, b[|a|..]);
    assert b == a + b[|a|..];
  }

  lemma StoredOnce(s: Pipe, k: Key)
    requires Good(s) && Stored(s.logs, k)
    ensures Occurs(LogOf(s.logs, k.0), k.1) == 1
  {
    StrictOnce(LogOf(s.logs, k.0), k.1);
    WithSeqMember(LogOf(s.logs, k.0), k.1);
  }

  /** The arms of the select. */
  datatype Arm = ShutdownSignal | FromCritical | FromAdvisory | BothClosed | Tick | OneClosed {
    predicate Exits() { ShutdownSignal? || BothClosed? }
    predicate Received() { FromCritical? || FromAdvisory? }
  }

  class FlushLoop {
    const cfg: Config
    const batchSize: nat
    var nextSeq: nat
    var waiting: seq<WriteEvent>
    var waitingAdvisory: seq<WriteEvent>
    var criticalRx: seq<WriteEvent>
    var advisoryRx: seq<WriteEvent>
    var batch: seq<WriteEvent>
    var logs: Logs
    ghost var flush: Flush
    ghost var accepted: seq<Key>
    ghost var written: seq<WriteEvent>
    ghost var trace: seq<Action>

    ghost function Abs(): Pipe
      reads this
    {
      Pipe(nextSeq, waiting, waitingAdvisory, criticalRx, advisoryRx, batch, flush, logs, accepted, written)
    }

    /** The loop is in a state of some interleaving. */
    ghost predicate Valid()
      reads this
    {
      Abs() == Perform(cfg, trace)
    }

    constructor (cfg: Config, batchSize: nat)
      ensures Valid() && flush == Idle && this.cfg == cfg && this.batchSize == batchSize && trace == []
    {
      this.cfg, this.batchSize := cfg, batchSize;
      nextSeq, waiting, waitingAdvisory, criticalRx, advisoryRx, batch, logs := 1, [], [], [], [], [], map[];
      flush, accepted, written, trace := Idle, [], [], [];
    }

    /** A step has been carried out: record it. */
    ghost method Record(before: Pipe, a: Action)
      requires before == Perform(cfg, trace) && Enabled(cfg, before, a) && Abs() == Do(cfg, before, a)
      modifies `trace
      ensures Valid()
      ensures LoopActions(trace) == if ByProducer(a) then LoopActions(old(trace)) else LoopActions(old(trace)) + [a]
    {
      hide Do, LoopActions;
      LoopActionsSnoc(trace, a);
      trace := trace + [a];
      assert trace[..|trace| - 1] == old(trace);
    }

    // ---- Producers ----

    /** write(): number the event; it waits for room in the critical channel. */
    method Write(e: WriteEvent)
      requires Valid() && e.IsCritical()
      modifies this
      ensures Valid() && LoopActions(trace) == LoopActions(old(trace))
      ensures batch == old(batch) && flush == old(flush) && logs == old(logs) && accepted == old(accepted)
      ensures waiting == old(waiting) + [e.Numbered(old(nextSeq))] && nextSeq == old(nextSeq) + 1
      ensures waitingAdvisory == old(waitingAdvisory) && criticalRx == old(criticalRx) && advisoryRx == old(advisoryRx)
    {
      ghost var before := Abs();
      waiting := waiting + [e.Numbered(nextSeq)];
      nextSeq := nextSeq + 1;
      Record(before, Allocate(e));
    }

    /** The channel has room for a waiting event. */
    method Send(i: nat)
      requires Valid() && i < |waiting| && |criticalRx| < cfg.criticalCapacity
      modifies this
      ensures Valid() && LoopActions(trace) == LoopActions(old(trace))
      ensures batch == old(batch) && flush == old(flush) && logs == old(logs) && old(accepted) <= accepted
      ensures criticalRx == old(criticalRx) + [old(waiting)[i]] && waiting == Without(old(waiting), i)
      ensures accepted == old(accepted) + [KeyOf(old(waiting)[i])]
      ensures advisoryRx == old(advisoryRx) && waitingAdvisory == old(waitingAdvisory)
    {
      ghost var before := Abs();
      var e := waiting[i];
      waiting := waiting[..i] + waiting[i + 1..];
      criticalRx := criticalRx + [e];
      accepted := accepted + [KeyOf(e)];
      Record(before, Action.Send(i));
    }

    /** try_write(), first half: number the event. */
    method NumberAdvisory(e: WriteEvent)
      requires Valid() && !e.IsCritical()
      modifies this
      ensures Valid() && LoopActions(trace) == LoopActions(old(trace))
      ensures batch == old(batch) && flush == old(flush) && logs == old(logs) && accepted == old(accepted)
      ensures waitingAdvisory == old(waitingAdvisory) + [e.Numbered(old(nextSeq))] && nextSeq == old(nextSeq) + 1
      ensures waiting == old(waiting) && criticalRx == old(criticalRx) && advisoryRx == old(advisoryRx)
    {
      ghost var before := Abs();
      waitingAdvisory := waitingAdvisory + [e.Numbered(nextSeq)];
      nextSeq := nextSeq + 1;
      Record(before, AllocateAdvisory(e));
    }

    /** try_write(), second half: send, dropping the event when the channel is full. */
    method TrySend(i: nat)
      requires Valid() && i < |waitingAdvisory|
      modifies this
      ensures Valid() && LoopActions(trace) == LoopActions(old(trace))
      ensures batch == old(batch) && flush == old(flush) && logs == old(logs) && accepted == old(accepted)
      ensures waitingAdvisory == Without(old(waitingAdvisory), i)
      ensures advisoryRx ==
              old(advisoryRx) + if |old(advisoryRx)| < cfg.advisoryCapacity then [old(waitingAdvisory)[i]] else []
      ensures criticalRx == old(criticalRx) && waiting == old(waiting)
    {
      ghost var before := Abs();
      var e := waitingAdvisory[i];
      waitingAdvisory := waitingAdvisory[..i] + waitingAdvisory[i + 1..];
      if |advisoryRx| < cfg.advisoryCapacity {
        advisoryRx := advisoryRx + [e];
      }
      Record(before, Action.TrySend(i));
    }

    /** Other tasks run for a while: any number of producer operations. */
    method Elsewhere()
      requires Valid()
      modifies this
      ensures Valid() && LoopActions(trace) == LoopActions(old(trace))
      ensures batch == old(batch) && flush == old(flush) && logs == old(logs) && old(accepted) <= accepted
    {
      hide Perform, Enabled, Do, LoopActions;
      var rounds: nat :| rounds >= 0;
      for n := 0 to rounds
        invariant Valid() && LoopActions(trace) == LoopActions(old(trace))
        invariant batch == old(batch) && flush == old(flush) && logs == old(logs) && old(accepted) <= accepted
      {
        var e: WriteEvent := *;
        var i: nat :| i >= 0;
        if i < |waiting| && |criticalRx| < cfg.criticalCapacity {
          Send(i);
        } else if i < |waitingAdvisory| {
          TrySend(i);
        } else if e.IsCritical() {
          Write(e);
        } else {
          NumberAdvisory(e);
        }
      }
    }

    // ---- The loop's own operations ----

    method TakeCritical()
      requires Valid() && flush.Idle? && criticalRx != []
      modifies this
      ensures Valid() && flush.Idle? && LoopActions(trace) == LoopActions(old(trace)) + [Receive]
      ensures criticalRx == old(criticalRx)[1..] && batch == old(batch) + [old(criticalRx)[0]]
      ensures logs == old(logs) && accepted == old(accepted)
    {
      ghost var before := Abs();
      batch := batch + [criticalRx[0]];
      criticalRx := criticalRx[1..];
      Record(before, Receive);
    }

    method TakeAdvisory()
      requires Valid() && flush.Idle? && advisoryRx != []
      modifies this
      ensures Valid() && flush.Idle? && LoopActions(trace) == LoopActions(old(trace)) + [ReceiveAdvisory]
      ensures advisoryRx == old(advisoryRx)[1..] && batch == old(batch) + [old(advisoryRx)[0]]
      ensures logs == old(logs) && accepted == old(accepted)
    {
      ghost var before := Abs();
      batch := batch + [advisoryRx[0]];
      advisoryRx := advisoryRx[1..];
      Record(before, ReceiveAdvisory);
    }

    /** Since `before` the loop has only received. */
    ghost predicate OnlyReceived(before: seq<Action>)
      reads this
    {
      LoopActions(before) <= LoopActions(trace) && AllReceives(LoopActions(trace)[|LoopActions(before)|..])
    }

    /** drain_channel: receive until the channel is seen empty. Senders may add meanwhile, any
        number of times. */
    method DrainCritical()
      requires Valid() && flush.Idle?
      modifies this
      ensures Valid() && flush.Idle? && criticalRx == [] && old(batch) <= batch && OnlyReceived(old(trace))
      ensures logs == old(logs) && old(accepted) <= accepted
    {
      hide Perform, LoopActions;
      var others: nat :| others >= 0;
      while criticalRx != []
        invariant Valid() && flush.Idle? && old(batch) <= batch && OnlyReceived(old(trace))
        invariant logs == old(logs) && old(accepted) <= accepted
        decreases others, |criticalRx|
      {
        TakeCritical();
        if others > 0 {
          Elsewhere();
          others := others - 1;
        }
      }
    }

    method DrainAdvisory()
      requires Valid() && flush.Idle?
      modifies this
      ensures Valid() && flush.Idle? && advisoryRx == [] && old(batch) <= batch && OnlyReceived(old(trace))
      ensures logs == old(logs) && old(accepted) <= accepted
    {
      hide Perform, LoopActions;
      var others: nat :| others >= 0;
      while advisoryRx != []
        invariant Valid() && flush.Idle? && old(batch) <= batch && OnlyReceived(old(trace))
        invariant logs == old(logs) && old(accepted) <= accepted
        decreases others, |advisoryRx|
      {
        TakeAdvisory();
        if others > 0 {
          Elsewhere();
          others := others - 1;
        }
      }
    }

    /** One call of write_batch on a store that may fail, possibly having stored a part. */
    method StoreWrite(events: seq<WriteEvent>) returns (ok: bool, ghost taken: set<Key>)
      modifies `logs, `written
      ensures ok ==> logs == MemWrite(old(logs), events) && written == old(written) + events
      ensures !ok ==> logs == MemWrite(old(logs), Kept(events, taken)) && written == old(written) + Kept(events, taken)
    {
      hide MemWrite, Kept;
      ok := *;
      taken := {};
      if ok {
        logs := MemWrite(logs, events);
        written := written + events;
      } else {
        var part: set<Key> := *;
        taken := part;
        logs := MemWrite(logs, Kept(events, part));
        written := written + Kept(events, part);
      }
    }

    method Redact(events: seq<WriteEvent>) returns (redacted: seq<WriteEvent>)
      ensures redacted == Redacted(cfg, events)
    {
      redacted := [];
      for i := 0 to |events|
        invariant redacted == Redacted(cfg, events[..i])
      {
        assert events[..i + 1][..i] == events[..i];
        redacted := redacted + [cfg.redact(events[i])];
      }
      assert events[..|events|] == events;
    }

    /** Put the critical events of a batch that could not be written back into the batch. */
    method Rebuffer(events: seq<WriteEvent>)
      modifies `batch
      ensures batch == old(batch) + Critical(events)
    {
      for i := 0 to |events|
        invariant batch == old(batch) + Critical(events[..i])
      {
        assert events[..i + 1][..i] == events[..i];
        if events[i].IsCritical() {
          batch := batch + [events[i]];
        }
      }
      assert events[..|events|] == events;
    }

    /** One attempt at writing the flushed batch. */
    method Attempt(redacted: seq<WriteEvent>, retry: bool) returns (ok: bool, ghost act: Action)
      requires Valid() && flush == Writing(redacted, retry)
      modifies this
      ensures Valid() && LoopActions(trace) == LoopActions(old(trace)) + [act]
      ensures act == StoreOk || act.StoreFails?
      ensures ok <==> act == StoreOk
      ensures flush == if ok || retry then Idle else Writing(redacted, true)
      ensures batch == if !ok && retry then old(batch) + Critical(redacted) else old(batch)
      ensures StillStored(old(logs), logs) && (ok ==> AllStored(logs, redacted))
    {
      hide Perform, MemWrite, Kept, Critical, Redacted, LoopActions, StillStored, AllStored;
      ghost var before := Abs();
      ghost var taken;
      ok, taken := StoreWrite(redacted);
      WriteStillStored(old(logs), redacted);
      WriteStillStored(old(logs), Kept(redacted, taken));
      if ok {
        flush := Idle;
        act := StoreOk;
      } else {
        if retry {
          Rebuffer(redacted);
        }
        flush := if retry then Idle else Writing(redacted, true);
        act := StoreFails(taken);
      }
      Record(before, act);
    }

    /** Empty the batch and redact what it held. */
    method TakeBatch() returns (redacted: seq<WriteEvent>)
      requires Valid() && flush.Idle? && batch != []
      modifies this
      ensures Valid() && LoopActions(trace) == LoopActions(old(trace)) + [BeginFlush]
      ensures redacted == Redacted(cfg, old(batch)) && batch == [] && flush == Writing(redacted, false) &&
        logs == old(logs)
    {
      hide Perform, Redacted, LoopActions;
      ghost var before := Abs();
      redacted := Redact(batch);
      batch := [];
      flush := Writing(redacted, false);
      Record(before, BeginFlush);
    }

    /** Write the batch; on failure wait and retry once; on a second failure keep the critical
        events, redacted, for the next flush and drop the others. */
    method FlushBatch()
      requires Valid() && flush.Idle? && batch != []
      modifies this
      ensures Valid() && flush.Idle?
      ensures LoopActions(old(trace)) <= LoopActions(trace) && IsFlush(LoopActions(trace)[|LoopActions(old(trace))|..])
      ensures var ok := LoopActions(trace)[|LoopActions(trace)| - 1].StoreOk?;
        && batch == (if ok then [] else Critical(Redacted(cfg, old(batch))))
        && StillStored(old(logs), logs) && (ok ==> AllStored(logs, Redacted(cfg, old(batch))))
    {
      hide Perform, Redacted, LoopActions, Critical, AllStored;
      ghost var done := LoopActions(trace);
      var redacted := TakeBatch();
      Elsewhere();
      ghost var act, act';
      var ok;
      ok, act := Attempt(redacted, false);
      assert LoopActions(trace) == done + [BeginFlush, act];
      if !ok {
        Elsewhere();
        ok, act' := Attempt(redacted, true);
        assert LoopActions(trace) == done + [BeginFlush, act, act'];
      }
    }

    /** Flush a non-empty batch; afterwards it is empty unless the write failed twice. */
    method FlushIf(due: bool)
      requires Valid() && flush.Idle?
      modifies this
      ensures Valid() && flush.Idle?
      ensures due ==> batch == [] || GaveUp(trace)
      ensures !due ==> unchanged(this)
      ensures StillStored(old(logs), logs)
      ensures due && KeepsKeys(cfg) ==>
        forall k :: k in CriticalKeys(old(batch)) ==> Stored(logs, k) || k in CriticalKeys(batch)
    {
      hide Perform, LoopActions, Redacted, Critical, CriticalKeys, AllStored, Stored, KeepsKeys, GaveUp;
      if due && batch != [] {
        FlushBatch();
        if LoopActions(trace)[|LoopActions(trace)| - 1].StoreOk? {
          if KeepsKeys(cfg) {
            FlushedStored(cfg, logs, old(batch));
          }
        } else {
          FailedFlush(LoopActions(old(trace)), trace);
          if KeepsKeys(cfg) {
            CriticalKeysCritical(Redacted(cfg, old(batch)));
            CriticalKeysRedacted(cfg, old(batch));
          }
        }
      }
    }

    /** Keys that are in their logs, or in the batch on their way there. */
    ghost predicate Held(keys: seq<Key>)
      reads this
    {
      forall k :: k in keys ==> Stored(logs, k) || k in CriticalKeys(batch)
    }

    /** Each key is in its log exactly when it is not in the batch. */
    ghost predicate Conserved(keys: seq<Key>)
      reads this
    {
      forall k :: k in keys ==> (Stored(logs, k) <==> k !in CriticalKeys(batch))
    }

    /** With an empty critical channel everything accepted is held. */
    ghost method AcceptedHeld()
      requires Valid() && flush.Idle? && criticalRx == [] && KeepsKeys(cfg)
      ensures Held(accepted)
    {
      hide Perform, KeepsKeys, Stored;
      PipelineExactlyOnce(cfg, trace);
      NoKeys();
      assert forall k :: k in accepted ==> Stored(logs, k) || OnTheWay(Abs(), k);
    }

    /** Write what is left. Unless that failed twice, everything held before is then stored, once;
        over stores that store all or nothing, whatever is not stored is still in the batch. */
    method FinalFlush(ghost keys: seq<Key>)
      requires Valid() && flush.Idle? && (KeepsKeys(cfg) ==> Held(keys))
      modifies this
      ensures Valid() && flush.Idle? && (batch == [] || GaveUp(trace))
      ensures KeepsKeys(cfg) && !GaveUp(trace) ==> forall k :: k in keys ==> Occurs(LogOf(logs, k.0), k.1) == 1
      ensures KeepsKeys(cfg) && AllOrNothing(trace) ==> Conserved(keys)
      ensures KeepsKeys(cfg) ==> Held(keys)
    {
      hide Perform, KeepsKeys, GaveUp, LoopActions, Stored, CriticalKeys, Occurs, AllOrNothing;
      FlushIf(true);
      NoKeys();
      if KeepsKeys(cfg) && AllOrNothing(trace) {
        forall k | k in keys && k in CriticalKeys(batch) ensures !Stored(logs, k) {
          BatchedNotStored(cfg, trace, k);
        }
      }
      if KeepsKeys(cfg) && !GaveUp(trace) {
        PipelineExactlyOnce(cfg, trace);
        forall k | k in keys ensures Occurs(LogOf(logs, k.0), k.1) == 1 {
          StoredOnce(Abs(), k);
        }
      }
    }

    /** The shutdown arm: drain both channels, then write what is left. Every critical event that
        was accepted before the drain is then in its log exactly once, unless two writes failed. */
    method Shutdown()
      requires Valid() && flush.Idle?
      modifies this
      ensures Valid() && flush.Idle? && (batch == [] || GaveUp(trace))
      ensures KeepsKeys(cfg) && !GaveUp(trace) ==> forall k :: k in old(accepted) ==> Occurs(LogOf(logs, k.0), k.1) == 1
      ensures KeepsKeys(cfg) && AllOrNothing(trace) ==> Conserved(old(accepted))
      ensures KeepsKeys(cfg) ==> Held(old(accepted))
    {
      hide Perform, KeepsKeys, GaveUp, LoopActions, Stored, CriticalKeys, Occurs, AllOrNothing;
      DrainCritical();
      if KeepsKeys(cfg) {
        AcceptedHeld();
      }
      ghost var drained := batch;
      DrainAdvisory();
      KeysGrow(drained, batch);
      FinalFlush(old(accepted));
    }

    /** What was held stays held through a flush, and is stored if the batch is then empty. */
    method FlushHolding(due: bool, ghost keys: seq<Key>)
      requires Valid() && flush.Idle? && (KeepsKeys(cfg) ==> Held(keys))
      modifies this
      ensures Valid() && flush.Idle? && (KeepsKeys(cfg) ==> Held(keys))
      ensures due ==> batch == [] || GaveUp(trace)
      ensures !due ==> unchanged(this)
    {
      hide Perform, KeepsKeys, GaveUp, LoopActions, Stored, CriticalKeys;
      FlushIf(due);
    }

    /** A critical event was received: both channels are drained, and a full batch is written. */
    method OnCritical()
      requires Valid() && flush.Idle? && criticalRx != []
      modifies this
      ensures Valid() && flush.Idle? && (KeepsKeys(cfg) ==> Held(old(accepted)))
      ensures |batch| < batchSize || batch == [] || GaveUp(trace)
      ensures advisoryRx == [] || batch == [] || GaveUp(trace)
    {
      hide Perform, KeepsKeys, GaveUp, LoopActions, Stored, CriticalKeys;
      TakeCritical();
      DrainCritical();
      if KeepsKeys(cfg) {
        AcceptedHeld();
      }
      ghost var drained := batch;
      DrainAdvisory();
      KeysGrow(drained, batch);
      FlushHolding(|batch| >= batchSize, old(accepted));
    }

    /** An advisory event was received: both channels are drained, and a full batch is written. */
    method OnAdvisory()
      requires Valid() && flush.Idle? && advisoryRx != []
      modifies this
      ensures Valid() && flush.Idle? && (KeepsKeys(cfg) ==> Held(old(accepted)))
      ensures |batch| < batchSize || batch == [] || GaveUp(trace)
      ensures criticalRx == [] || batch == [] || GaveUp(trace)
    {
      hide Perform, KeepsKeys, GaveUp, LoopActions, Stored, CriticalKeys;
      TakeAdvisory();
      DrainAdvisory();
      DrainCritical();
      if KeepsKeys(cfg) {
        AcceptedHeld();
      }
      FlushHolding(|batch| >= batchSize, old(accepted));
    }

    ghost method BatchHeld()
      requires Valid()
      ensures Held(CriticalKeys(batch))
    {
    }

    /** One round of the loop: which arm of the select fires is arbitrary. Whatever happened, the
        state is that of some interleaving, so nothing critical is lost. A tick writes the batch; a
        round that received has drained the channels and leaves no full batch; and a round that
        leaves something batched saw more work coming, has a batch worth waiting for, or failed
        twice. A round that leaves the loop without having failed twice has stored, exactly once,
        every critical event accepted before it; over stores that store all or nothing, what a
        leaving round has not stored is exactly what is left in the batch. */
    method Round() returns (arm: Arm)
      requires Valid() && flush.Idle?
      modifies this
      ensures Valid() && flush.Idle?
      ensures arm.Tick? || arm.Exits() ==> batch == [] || GaveUp(trace)
      ensures arm.Received() ==> |batch| < batchSize || batch == [] || GaveUp(trace)
      ensures batch == [] || GaveUp(trace) || |batch| >= 10 || criticalRx != [] || advisoryRx != []
      ensures KeepsKeys(cfg) && (arm.Received() || arm.ShutdownSignal?) ==> Held(old(accepted))
      ensures KeepsKeys(cfg) && arm.Tick? && !GaveUp(trace) ==> forall k :: k in CriticalKeys(old(batch)) ==>
        Stored(logs, k)
      ensures arm.Exits() && KeepsKeys(cfg) && !GaveUp(trace) ==>
        forall k :: k in old(accepted) ==> Occurs(LogOf(logs, k.0), k.1) == 1
      ensures arm.Exits() && KeepsKeys(cfg) && AllOrNothing(trace) ==> Conserved(old(accepted))
      ensures KeepsKeys(cfg) ==> Good(Abs())
      ensures KeepsKeys(cfg) && AllOrNothing(trace) ==> Fifo(Abs())
    {
      hide Perform, Good, KeepsKeys, GaveUp, LoopActions, Fifo, AllOrNothing, ChannelsTyped, Occurs, Stored;
      hide CriticalKeys;
      Elsewhere();
      arm := *;
      ghost var keys := CriticalKeys(batch);
      BatchHeld();
      if arm.ShutdownSignal? {
        Shutdown();
      } else if arm.FromCritical? && criticalRx != [] {
        OnCritical();
        keys := old(accepted);
      } else if arm.FromAdvisory? && advisoryRx != [] {
        OnAdvisory();
        keys := old(accepted);
      } else if arm.BothClosed? && criticalRx == [] && advisoryRx == [] {
        // both channels closed, which is seen only once they are empty
        if KeepsKeys(cfg) {
          AcceptedHeld();
        }
        FinalFlush(accepted);
      } else if arm.Tick? {
        FlushHolding(true, keys);
      } else {
        // one of the channels closed: the loop goes on with the other
        arm := OneClosed;
      }
      if !arm.Exits() {
        // adaptive flush under light load
        FlushHolding(|batch| < 10 && criticalRx == [] && advisoryRx == [], keys);
        NoKeys();
      }
      if KeepsKeys(cfg) {
        PipelineExactlyOnce(cfg, trace);
        if AllOrNothing(trace) {
          PipelineFifo(cfg, trace);
        }
      }
    }
  }
}
