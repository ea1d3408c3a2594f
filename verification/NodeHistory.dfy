/** Executing a node leaves a trace of events; folding the log gives its attempts back. */
module NodeHistory {
  import opened Common
  import opened Events

  // ---- Executing one node ----

  datatype AttemptResult =
    | Returned(outputs: Json, durationMs: nat)
    | Errored(message: string, retryable: bool)
    | TimedOut(message: string)

  /** One execution of a node; `results` tells what the handler does on each attempt. */
  datatype Execution = Execution(
    runId: RunId, node: string, inputs: Json, index: Option<nat>, retryLimit: nat, results: nat -> AttemptResult)
  {
    function MaxAttempts(): nat { if retryLimit < 1 then 1 else retryLimit }

    predicate WillRetry(attempt: nat) {
      results(attempt).Errored? && results(attempt).retryable && attempt < MaxAttempts()
    }
  }

  function StartEvent(x: Execution, attempt: nat): WriteEvent {
    NodeStarted(x.runId, 0, x.node, x.inputs, x.index, attempt, 0)
  }

  function EndEvent(x: Execution, attempt: nat): (e: WriteEvent)
    ensures (e.NodeCompleted? || e.NodeFailed?) && e.nodeId == x.node
  {
    match x.results(attempt)
    case Returned(outputs, durationMs) => NodeCompleted(x.runId, 0, x.node, outputs, x.index, durationMs, 0)
    case Errored(message, _) => NodeFailed(x.runId, 0, x.node, message, x.WillRetry(attempt), attempt, 0)
    case TimedOut(message) => NodeFailed(x.runId, 0, x.node, message, false, attempt, 0)
  }

  /** The events from some attempt on. */
  function Trace(x: Execution, attempt: nat): seq<WriteEvent>
    decreases x.MaxAttempts() - attempt, 1
  {
    [StartEvent(x, attempt), EndEvent(x, attempt)] + TraceRest(x, attempt)
  }

  /** What follows the end of an attempt: a checkpoint, another attempt, or nothing. */
  function TraceRest(x: Execution, attempt: nat): seq<WriteEvent>
    decreases x.MaxAttempts() - attempt, 0
  {
    if x.WillRetry(attempt) then Trace(x, attempt + 1)
    else if x.results(attempt).Returned? then [Checkpoint(x.runId, 0, x.node, x.results(attempt).outputs, 0)]
    else []
  }

  function FinalOutcome(x: Execution, attempt: nat): Outcome
    decreases x.MaxAttempts() - attempt
  {
    match x.results(attempt)
    case Returned(outputs, _) => Success(outputs)
    case Errored(message, _) => if x.WillRetry(attempt) then FinalOutcome(x, attempt + 1) else Outcome.Failed(message)
    case TimedOut(message) => Outcome.Failed(message)
  }

  /** The retry loop: a retryable error is tried again while attempts remain; anything else ends it. */
  method ExecuteNode(x: Execution) returns (events: seq<WriteEvent>, outcome: Outcome)
    ensures events == Trace(x, 1) && outcome == FinalOutcome(x, 1)
  {
    hide StartEvent, EndEvent, Trace, FinalOutcome;
    events := [];
    var attempt := 1;
    while true
      invariant 1 <= attempt <= x.MaxAttempts()
      invariant Trace(x, 1) == events + Trace(x, attempt)
      invariant FinalOutcome(x, attempt) == FinalOutcome(x, 1)
      decreases x.MaxAttempts() - attempt
    {
      ghost var before := events;
      TraceUnfolds(x, attempt);
      events := events + [StartEvent(x, attempt)];
      var result := x.results(attempt);
      events := events + [EndEvent(x, attempt)];
      assert events == before + [StartEvent(x, attempt), EndEvent(x, attempt)];
      match result {
        case Returned(outputs, _) =>
          events := events + [Checkpoint(x.runId, 0, x.node, outputs, 0)];
          return events, Success(outputs);
        case Errored(message, retryable) =>
          if !(retryable && attempt < x.MaxAttempts()) {
            return events, Outcome.Failed(message);
          }
          assert Trace(x, 1) == events + Trace(x, attempt + 1);
        case TimedOut(message) =>
          return events, Outcome.Failed(message);
      }
      attempt := attempt + 1;
    }
  }

  lemma TraceUnfolds(x: Execution, attempt: nat)
    ensures Trace(x, attempt) == [StartEvent(x, attempt), EndEvent(x, attempt)] + TraceRest(x, attempt)
    ensures FinalOutcome(x, attempt) == match x.results(attempt)
      case Returned(outputs, _) => Success(outputs)
      case Errored(message, _) => if x.WillRetry(attempt) then FinalOutcome(x, attempt + 1) else Outcome.Failed(message)
      case TimedOut(message) => Outcome.Failed(message)
  {
  }

  // ---- What an execution does, told by what the handler did ----

  /** `start` and `end` tell of attempt `k`; `more` says whether another attempt follows. */
  ghost predicate Records(start: WriteEvent, end: WriteEvent, x: Execution, k: nat, more: bool) {
    && start == NodeStarted(x.runId, 0, x.node, x.inputs, x.index, k, 0)
    && match x.results(k)
       case Returned(outputs, durationMs) => !more &&
         end == NodeCompleted(x.runId, 0, x.node, outputs, x.index, durationMs, 0)
       case Errored(message, _) => end == NodeFailed(x.runId, 0, x.node, message, more, k, 0)
       case TimedOut(message) => !more && end == NodeFailed(x.runId, 0, x.node, message, false, k, 0)
  }

  /** Attempt `n` is where an execution that has come to attempt `a` stops: all before it ended in a
      retryable error, and it did not or the limit is reached. */
  ghost predicate StopsAt(x: Execution, a: nat, n: nat) {
    && a <= n && (n == 1 || n <= x.retryLimit)
    && (forall k :: a <= k < n ==> x.results(k).Errored? && x.results(k).retryable)
    && (n >= x.retryLimit || !(x.results(n).Errored? && x.results(n).retryable))
  }

  ghost predicate RecordsAt(x: Execution, a: nat, n: nat, events: seq<WriteEvent>, k: nat) {
    a <= k && 2 * (k - a) + 1 < |events| && Records(events[2 * (k - a)], events[2 * (k - a) + 1], x, k, k < n)
  }

  /** The attempts from `a` to `n`, and a checkpoint if the last one returned. */
  ghost predicate TraceOf(x: Execution, a: nat, n: nat, events: seq<WriteEvent>)
    requires a <= n
  {
    var pairs := 2 * (n - a + 1);
    && |events| == pairs + (if x.results(n).Returned? then 1 else 0)
    && (forall k :: a <= k <= n ==> RecordsAt(x, a, n, events, k))
    && (x.results(n).Returned? ==> events[pairs] == Checkpoint(x.runId, 0, x.node, x.results(n).outputs, 0))
  }

  ghost predicate OutcomeOf(r: AttemptResult, o: Outcome) {
    match r
    case Returned(outputs, _) => o == Success(outputs)
    case Errored(message, _) => o == Outcome.Failed(message)
    case TimedOut(message) => o == Outcome.Failed(message)
  }

  lemma TraceOfLonger(x: Execution, a: nat, n: nat, events: seq<WriteEvent>)
    requires x.WillRetry(a) && a + 1 <= n && TraceOf(x, a + 1, n, events)
    ensures TraceOf(x, a, n, [StartEvent(x, a), EndEvent(x, a)] + events)
  {
    var longer := [StartEvent(x, a), EndEvent(x, a)] + events;
    hide Records, StartEvent, EndEvent;
    FirstRecorded(x, a, n, longer);
    forall k: nat | a <= k <= n ensures RecordsAt(x, a, n, longer, k) {
      if k > a {
        assert RecordsAt(x, a + 1, n, events, k);
        assert longer[2 * (k - a)] == events[2 * (k - (a + 1))];
        assert longer[2 * (k - a) + 1] == events[2 * (k - (a + 1)) + 1];
      }
    }
  }

  lemma FirstRecorded(x: Execution, a: nat, n: nat, events: seq<WriteEvent>)
    requires x.WillRetry(a) && a < n && |events| >= 2 && events[0] == StartEvent(x, a) && events[1] == EndEvent(x, a)
    ensures RecordsAt(x, a, n, events, a)
  {
  }

  /** An execution makes attempts 1 to n, at most max(1, limit): it retries exactly after retryable
      errors while the limit allows, records each attempt with its own result, and its outcome is
      that of the last one. */
  lemma {:induction false} ExecutionStops(x: Execution, a: nat) returns (n: nat)
    requires 1 <= a && (a == 1 || a <= x.retryLimit)
    ensures StopsAt(x, a, n) && TraceOf(x, a, n, Trace(x, a)) && OutcomeOf(x.results(n), FinalOutcome(x, a))
    decreases x.MaxAttempts() - a
  {
    hide TraceOf, StartEvent, EndEvent;
    if x.WillRetry(a) {
      n := ExecutionStops(x, a + 1);
      TraceOfLonger(x, a, n, Trace(x, a + 1));
    } else {
      n := a;
      TraceOfLast(x, a);
    }
  }

  lemma TraceOfLast(x: Execution, a: nat)
    requires !x.WillRetry(a)
    ensures TraceOf(x, a, a, Trace(x, a))
  {
  }

  // ---- Rebuilding the attempts of a node from a log ----

  datatype Attempt = Attempt(
    attempt: nat, index: Option<nat>, inputs: Json,
    outputs: Option<Json>, error: Option<string>, durationMs: Option<nat>)
  {
    predicate Open() { outputs.None? && error.None? }
  }

  /** Which attempts an end event may belong to: those of one fan-out index, or any. */
  datatype Want = Any | Index(index: Option<nat>) {
    predicate Fits(a: Attempt) { a.Open() && (Any? || a.index == index) }
  }

  /** The most recent unfinished attempt that fits. */
  function LastOpen(attempts: seq<Attempt>, w: Want): (r: Option<nat>)
    ensures r.Some? ==> r.value < |attempts| && w.Fits(attempts[r.value])
    ensures r.Some? ==> forall i :: r.value < i < |attempts| ==> !w.Fits(attempts[i])
    ensures r.None? ==> forall i :: 0 <= i < |attempts| ==> !w.Fits(attempts[i])
  {
    if attempts == [] then None
    else if w.Fits(attempts[|attempts| - 1]) then Some(|attempts| - 1)
    else LastOpen(attempts[..|attempts| - 1], w)
  }

  function Observe(attempts: seq<Attempt>, e: WriteEvent, node: string): seq<Attempt> {
    match e
    case NodeStarted(_, _, n, inputs, index, attempt, _) =>
      if n == node then attempts + [Attempt(attempt, index, inputs, None, None, None)] else attempts
    case NodeCompleted(_, _, n, outputs, index, durationMs, _) =>
      var i := if n == node then LastOpen(attempts, Index(index)) else None;
      if i.None? then attempts
      else attempts[i.value := attempts[i.value].(outputs := Some(outputs), durationMs := Some(durationMs))]
    case NodeFailed(_, _, n, error, _, _, _) =>
      var i := if n == node then LastOpen(attempts, Any) else None;
      if i.None? then attempts
      else attempts[i.value := attempts[i.value].(error := Some(error))]
    case _ => attempts
  }

  function ObserveAll(attempts: seq<Attempt>, log: seq<WriteEvent>, node: string): seq<Attempt> {
    if log == [] then attempts
    else Observe(ObserveAll(attempts, log[..|log| - 1], node), log[|log| - 1], node)
  }

  method FindLastOpen(attempts: seq<Attempt>, w: Want) returns (r: Option<nat>)
    ensures r == LastOpen(attempts, w)
  {
    var i := |attempts|;
    assert attempts[..i] == attempts;
    while i > 0
      invariant 0 <= i <= |attempts|
      invariant LastOpen(attempts, w) == LastOpen(attempts[..i], w)
    {
      i := i - 1;
      assert attempts[..i + 1][..i] == attempts[..i];
      if w.Fits(attempts[i]) {
        return Some(i);
      }
    }
    r := None;
  }

  /** The fold over the log, updating the attempts in place; no attempt means no detail. */
  method ExtractNodeDetail(log: seq<WriteEvent>, node: string) returns (detail: Option<seq<Attempt>>)
    ensures detail == if ObserveAll([], log, node) == [] then None else Some(ObserveAll([], log, node))
  {
    hide LastOpen;
    var attempts: seq<Attempt> := [];
    for k := 0 to |log|
      invariant attempts == ObserveAll([], log[..k], node)
    {
      var e := log[k];
      assert log[..k + 1][..k] == log[..k];
      match e {
        case NodeStarted(_, _, n, inputs, index, attempt, _) =>
          if n == node {
            attempts := attempts + [Attempt(attempt, index, inputs, None, None, None)];
          }
        case NodeCompleted(_, _, n, outputs, index, durationMs, _) =>
          if n == node {
            var i := FindLastOpen(attempts, Index(index));
            if i.Some? {
              var ended := attempts[i.value].(outputs := Some(outputs), durationMs := Some(durationMs));
              attempts := attempts[i.value := ended];
            }
          }
        case NodeFailed(_, _, n, error, _, _, _) =>
          if n == node {
            var i := FindLastOpen(attempts, Any);
            if i.Some? {
              attempts := attempts[i.value := attempts[i.value].(error := Some(error))];
            }
          }
        case _ =>
      }
    }
    assert log[..|log|] == log;
    detail := if attempts == [] then None else Some(attempts);
  }

  // ---- Only a node's own events matter, and only their content ----

  predicate Relevant(e: WriteEvent, node: string) {
    (e.NodeStarted? || e.NodeCompleted? || e.NodeFailed?) && e.nodeId == node
  }

  function Bare(e: WriteEvent): WriteEvent {
    e.(seqNo := 0, timestamp := 0)
  }

  /** What the log holds about one node, without sequence numbers and times. */
  function Project(log: seq<WriteEvent>, node: string): seq<WriteEvent> {
    if log == [] then []
    else
      var rest, last := Project(log[..|log| - 1], node), log[|log| - 1];
      if Relevant(last, node) then rest + [Bare(last)] else rest
  }

  lemma {:induction false} ObserveProject(attempts: seq<Attempt>, log: seq<WriteEvent>, node: string)
    ensures ObserveAll(attempts, log, node) == ObserveAll(attempts, Project(log, node), node)
  {
    hide LastOpen;
    if log != [] {
      var rest, last := Project(log[..|log| - 1], node), log[|log| - 1];
      ObserveProject(attempts, log[..|log| - 1], node);
      if Relevant(last, node) {
        assert (rest + [Bare(last)])[..|rest|] == rest;
      }
    }
  }

  // ---- Executions running side by side ----

  datatype Phase = Ready(attempt: nat) | Busy(attempt: nat, slot: nat) | Saving(outputs: Json) | Finished

  datatype Job = Job(x: Execution, phase: Phase)

  /** One started attempt of the node under study. */
  datatype Line = Line(job: nat, x: Execution, attempt: nat, done: bool)

  /** `owners[k]` is the job that wrote `log[k]`; `ledger` is what really happened to one node. */
  datatype World = World(jobs: seq<Job>, log: seq<WriteEvent>, owners: seq<nat>, ledger: seq<Line>)

  function After(x: Execution, attempt: nat): Phase {
    if x.WillRetry(attempt) then Ready(attempt + 1)
    else if x.results(attempt).Returned? then Saving(x.results(attempt).outputs)
    else Finished
  }

  function Close(ledger: seq<Line>, slot: nat): seq<Line> {
    if slot < |ledger| then ledger[slot := ledger[slot].(done := true)] else ledger
  }

  /** Job `i` writes its next event. */
  function Advance(w: World, i: nat, node: string): World {
    if i >= |w.jobs| then w
    else
      var x := w.jobs[i].x;
      match w.jobs[i].phase
      case Ready(a) =>
        World(w.jobs[i := Job(x, Busy(a, |w.ledger|))], w.log + [StartEvent(x, a)], w.owners + [i],
              if x.node == node then w.ledger + [Line(i, x, a, false)] else w.ledger)
      case Busy(a, slot) =>
        World(w.jobs[i := Job(x, After(x, a))], w.log + [EndEvent(x, a)], w.owners + [i],
              if x.node == node then Close(w.ledger, slot) else w.ledger)
      case Saving(outputs) =>
        World(w.jobs[i := Job(x, Finished)], w.log + [Checkpoint(x.runId, 0, x.node, outputs, 0)], w.owners + [i],
              w.ledger)
      case Finished => w
  }

  /** Any interleaving: `choices` names the job that moves at each step. */
  function Interleave(xs: seq<Execution>, choices: seq<nat>, node: string): World {
    if choices == [] then World(seq(|xs|, i requires 0 <= i < |xs| => Job(xs[i], Ready(1))), [], [], [])
    else Advance(Interleave(xs, choices[..|choices| - 1], node), choices[|choices| - 1], node)
  }

  predicate AllFinished(w: World) {
    forall i :: 0 <= i < |w.jobs| ==> w.jobs[i].phase.Finished?
  }

  /** The items that belong to one job, in order. */
  function Of<T>(items: seq<T>, owners: seq<nat>, i: nat): seq<T>
    requires |items| == |owners|
  {
    if items == [] then []
    else
      var n := |items| - 1;
      Of(items[..n], owners[..n], i) + if owners[n] == i then [items[n]] else []
  }
}
