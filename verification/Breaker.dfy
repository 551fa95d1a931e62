/** The nanopayment circuit breaker, whose state changes lazily when it is read, and the retry loop that drives it. */
module Breaker {
  import opened Wrappers

  datatype Mode = Closed | Open | HalfOpen

  /** The breaker's settings and fields. */
  datatype Circuit = Circuit(
    threshold: int, recovery: real, failures: nat, lastFailure: Option<real>, mode: Mode)

  function NewCircuit(threshold: int, recovery: real): Circuit {
    Circuit(threshold, recovery, 0, None, Closed)
  }

  /** Enough time has passed, up to the tolerance for rounding. */
  predicate Recovered(recovery: real, last: real, now: real) {
    now - last + 0.000000001 >= recovery
  }

  /** Reading the state moves an open circuit whose recovery time is over to half-open. */
  function OnRead(c: Circuit, now: real): Circuit {
    if c.mode == Open && c.lastFailure.Some? &&
        Recovered(c.recovery, c.lastFailure.value, now) then c.(mode := HalfOpen)
    else c
  }

  /** A failure or an error: both count, and both trip the circuit at the threshold. */
  function OnFailure(c: Circuit, now: real): Circuit {
    Circuit(c.threshold, c.recovery, c.failures + 1, Some(now), if c.failures + 1 >= c.threshold then Open else c.mode)
  }

  function OnSuccess(c: Circuit): Circuit {
    NewCircuit(c.threshold, c.recovery)
  }

  // ---------------------------------------------------------------- the breaker as a function of history

  datatype Event = Succeeded | WasReset | Failed(at: real) | Erred(at: real) | WasRead(at: real)

  function Apply(c: Circuit, e: Event): Circuit {
    match e
    case Succeeded => OnSuccess(c)
    case WasReset => NewCircuit(c.threshold, c.recovery)
    case Failed(at) => OnFailure(c, at)
    case Erred(at) => OnFailure(c, at)
    case WasRead(at) => OnRead(c, at)
  }

  function Replay(c: Circuit, history: seq<Event>): Circuit {
    if history == [] then c else Apply(Replay(c, history[..|history| - 1]), history[|history| - 1])
  }

  /** The times of the failures and errors since the last success or reset; reads leave no trace. */
  function Faults(history: seq<Event>): seq<real> {
    if history == [] then []
    else
      var before := Faults(history[..|history| - 1]);
      match history[|history| - 1]
      case Succeeded => []
      case WasReset => []
      case Failed(at) => before + [at]
      case Erred(at) => before + [at]
      case WasRead(_) => before
  }

  predicate Refuses(threshold: int, recovery: real, faults: seq<real>, now: real) {
    && |faults| > 0 && |faults| >= threshold
    && !Recovered(recovery, faults[|faults| - 1], now)
  }

  predicate Timed(e: Event) {
    e.Failed? || e.Erred? || e.WasRead?
  }

  /** No event is later than `now`, and events are in the order of the clock. */
  predicate Monotone(history: seq<Event>, now: real) {
    && (forall i | 0 <= i < |history| && Timed(history[i]) :: history[i].at <= now)
    && forall i, j | 0 <= i < j < |history| && Timed(history[i]) && Timed(history[j]) :: history[i].at <= history[j].at
  }

  /** What the fields say about the history, `now` being no earlier than any event. */
  predicate Matches(c: Circuit, faults: seq<real>, now: real) {
    && c.failures == |faults|
    && c.lastFailure == (if faults == [] then None else Some(faults[|faults| - 1]))
    && (c.mode == Closed <==> faults == [] || |faults| < c.threshold)
    && (c.mode == HalfOpen ==> faults != [] && Recovered(c.recovery, faults[|faults| - 1], now))
  }

  lemma {:induction false} FieldsMatchHistory(threshold: int, recovery: real, history: seq<Event>, now: real)
    requires Monotone(history, now)
    ensures var c := Replay(NewCircuit(threshold, recovery), history);
            c.threshold == threshold && c.recovery == recovery && Matches(c, Faults(history), now)
  {
    if history != [] {
      var rest, last := history[..|history| - 1], history[|history| - 1];
      var earlier := if Timed(last) then last.at else now;
      assert Monotone(rest, earlier) by {
        forall i | 0 <= i < |rest| && Timed(rest[i]) ensures rest[i].at <= earlier {
          assert history[i] == rest[i];
        }
      }
      FieldsMatchHistory(threshold, recovery, rest, earlier);
    }
  }

  /** The lazily updated breaker refuses exactly when its history says so; a threshold below one acts like one. */
  lemma BreakerIsItsHistory(threshold: int, recovery: real, history: seq<Event>, now: real)
    requires Monotone(history, now)
    ensures var c := Replay(NewCircuit(threshold, recovery), history);
            OnRead(c, now).mode == Open <==> Refuses(threshold, recovery, Faults(history), now)
  {
    FieldsMatchHistory(threshold, recovery, history, now);
  }

  lemma {:induction false} FaultsIgnoreReads(history: seq<Event>)
    ensures Faults(history) == Faults(WithoutReads(history))
  {
    if history != [] {
      var rest, last := history[..|history| - 1], history[|history| - 1];
      FaultsIgnoreReads(rest);
      var kept := WithoutReads(rest);
      if last.WasRead? {
        assert WithoutReads(history) == kept;
      } else {
        assert WithoutReads(history) == kept + [last];
        assert (kept + [last])[..|kept|] == kept && (kept + [last])[|kept|] == last;
      }
    }
  }

  lemma {:induction false} WithoutReadsMonotone(history: seq<Event>, now: real)
    requires Monotone(history, now)
    ensures Monotone(WithoutReads(history), now)
  {
    if history != [] {
      var rest, last := history[..|history| - 1], history[|history| - 1];
      assert Monotone(rest, now);
      WithoutReadsMonotone(rest, now);
      if Timed(last) {
        assert Monotone(rest, last.at) by {
          forall i | 0 <= i < |rest| && Timed(rest[i]) ensures rest[i].at <= last.at {
            assert history[i] == rest[i];
          }
        }
        WithoutReadsMonotone(rest, last.at);
      }
    }
  }

  /** Reading the breaker is unobservable: it refuses the same with and without the reads in its history. */
  lemma ReadsDoNotMatter(threshold: int, recovery: real, history: seq<Event>, now: real)
    requires Monotone(history, now)
    ensures OnRead(Replay(NewCircuit(threshold, recovery), history), now).mode == Open
            <==> OnRead(Replay(NewCircuit(threshold, recovery), WithoutReads(history)), now).mode == Open
  {
    WithoutReadsMonotone(history, now);
    FaultsIgnoreReads(history);
    BreakerIsItsHistory(threshold, recovery, history, now);
    BreakerIsItsHistory(threshold, recovery, WithoutReads(history), now);
  }

  function WithoutReads(history: seq<Event>): seq<Event> {
    if history == [] then []
    else
      var last := history[|history| - 1];
      WithoutReads(history[..|history| - 1]) + if last.WasRead? then [] else [last]
  }

  // ---------------------------------------------------------------- the object

  class NanopaymentCircuitBreaker {
    const threshold: int
    const recovery: real
    var failures: nat
    var lastFailure: Option<real>
    var mode: Mode

    function Value(): Circuit
      reads this
    {
      Circuit(threshold, recovery, failures, lastFailure, mode)
    }

    constructor (threshold: int, recovery: real)
      ensures Value() == NewCircuit(threshold, recovery)
    {
      this.threshold, this.recovery := threshold, recovery;
      failures, lastFailure, mode := 0, None, Closed;
    }

    method ReadState(now: real) returns (state: Mode)
      modifies this
      ensures Value() == OnRead(old(Value()), now) && state == mode
    {
      if mode == Open && lastFailure.Some? {
        var elapsed := now - lastFailure.value;
        if elapsed + 0.000000001 >= recovery {
          mode := HalfOpen;
        }
      }
      state := mode;
    }

    method IsAvailable(now: real) returns (available: bool)
      modifies this
      ensures Value() == OnRead(old(Value()), now) && available == (mode != Open)
    {
      var state := ReadState(now);
      available := state != Open;
    }

    method RecordSuccess()
      modifies this
      ensures Value() == OnSuccess(old(Value()))
    {
      failures, mode, lastFailure := 0, Closed, None;
    }

    method RecordFailure(now: real)
      modifies this
      ensures Value() == OnFailure(old(Value()), now)
    {
      failures := failures + 1;
      lastFailure := Some(now);
      if failures >= threshold {
        mode := Open;
      }
    }

    method RecordError(now: real)
      modifies this
      ensures Value() == OnFailure(old(Value()), now)
    {
      failures := failures + 1;
      lastFailure := Some(now);
      if failures >= threshold {
        mode := Open;
      }
    }

    method Reset()
      modifies this
      ensures Value() == NewCircuit(threshold, recovery)
    {
      failures, lastFailure, mode := 0, None, Closed;
    }
  }

  /** Any history of calls on a new breaker, and then a request: it is refused exactly when the history says so. */
  method RefusedAfter(threshold: int, recovery: real, history: seq<Event>, now: real) returns (refused: bool)
    requires Monotone(history, now)
    ensures refused <==> Refuses(threshold, recovery, Faults(history), now)
  {
    var breaker := new NanopaymentCircuitBreaker(threshold, recovery);
    for i := 0 to |history|
      invariant breaker.Value() == Replay(NewCircuit(threshold, recovery), history[..i])
    {
      assert history[..i + 1][..i] == history[..i];
      match history[i] {
        case Succeeded => breaker.RecordSuccess();
        case WasReset => breaker.Reset();
        case Failed(at) => breaker.RecordFailure(at);
        case Erred(at) => breaker.RecordError(at);
        case WasRead(at) => var _ := breaker.ReadState(at);
      }
    }
    assert history[..|history|] == history;
    BreakerIsItsHistory(threshold, recovery, history, now);
    var available := breaker.IsAvailable(now);
    refused := !available;
  }

  // ---------------------------------------------------------------- settling with retries

  /**
   * What one submission comes to. A settlement error is transient when its message mentions a timeout or a connection.
   */
  datatype Reply =
    | Response(id: nat)
    | TimedOut
    | Unreachable
    | NonceReused
    | InsufficientBalance
    | SettlementError(transient: bool)
    | OtherException

  datatype Outcome = Returned(id: nat) | ReturnedNone | Raised(reply: Reply) | CircuitOpen

  predicate Transient(r: Reply) {
    r.TimedOut? || r.Unreachable? || (r.SettlementError? && r.transient)
  }

  function Pow2(n: nat): nat {
    if n == 0 then 1 else 2 * Pow2(n - 1)
  }

  /** What one submission does to the breaker; a transient settlement error on the last attempt counts twice. */
  function Heard(c: Circuit, r: Reply, at: real, last: bool): Circuit {
    if r.Response? then OnSuccess(c)
    else if r.OtherException? then c
    else if last && r.SettlementError? && r.transient then OnFailure(OnFailure(c, at), at)
    else OnFailure(c, at)
  }

  function HeardAll(c: Circuit, replies: nat -> Reply, clock: nat -> real, retries: int, n: nat): Circuit {
    if n == 0 then c
    else Heard(HeardAll(c, replies, clock, retries, n - 1), replies(n - 1), clock(n - 1), n - 1 == retries)
  }

  /** The events one submission adds to the breaker's history. */
  function Told(r: Reply, at: real, last: bool): seq<Event> {
    if r.Response? then [Succeeded]
    else if r.OtherException? then []
    else if last && r.SettlementError? && r.transient then [Erred(at), Failed(at)]
    else if Transient(r) then [Erred(at)]
    else [Failed(at)]
  }

  function ToldBy(replies: nat -> Reply, clock: nat -> real, retries: int, n: nat): seq<Event> {
    if n == 0 then []
    else ToldBy(replies, clock, retries, n - 1) + Told(replies(n - 1), clock(n - 1), n - 1 == retries)
  }

  lemma {:induction false} HeardIsReplayed(c: Circuit, replies: nat -> Reply, clock: nat -> real, retries: int, n: nat)
    ensures HeardAll(c, replies, clock, retries, n) == Replay(c, ToldBy(replies, clock, retries, n))
  {
    if n > 0 {
      HeardIsReplayed(c, replies, clock, retries, n - 1);
      ReplayOneReply(c, ToldBy(replies, clock, retries, n - 1), replies(n - 1), clock(n - 1), n - 1 == retries);
    }
  }

  lemma ReplayOneReply(c: Circuit, before: seq<Event>, r: Reply, at: real, last: bool)
    ensures Replay(c, before + Told(r, at, last)) == Heard(Replay(c, before), r, at, last)
  {
    ReplayBoth(c, before, Told(r, at, last));
    ReplayTold(Replay(c, before), r, at, last);
  }

  lemma ReplayTold(c: Circuit, r: Reply, at: real, last: bool)
    ensures Replay(c, Told(r, at, last)) == Heard(c, r, at, last)
  {
    assert [Erred(at), Failed(at)][..1] == [Erred(at)];
    ReplayOne(c, Erred(at));
    ReplayOne(c, Failed(at));
    ReplayOne(c, Succeeded);
  }

  lemma ReplayOne(c: Circuit, e: Event)
    ensures Replay(c, [e]) == Apply(c, e)
  {
  }

  lemma {:induction false} ReplayBoth(c: Circuit, first: seq<Event>, second: seq<Event>)
    ensures Replay(c, first + second) == Replay(Replay(c, first), second)
    decreases |second|
  {
    if second == [] {
      assert first + second == first;
    } else {
      var n := |second| - 1;
      ReplayBoth(c, first, second[..n]);
      assert (first + second)[..|first| + n] == first + second[..n];
    }
  }

  /** The wait after attempt `k`, twice as long each time. */
  function Delay(base: real, attempt: nat): real {
    base * Pow2(attempt) as real
  }

  function TotalWait(base: real, waits: nat): real {
    if waits == 0 then 0.0 else TotalWait(base, waits - 1) + Delay(base, waits - 1)
  }

  /** The waits of exponential backoff add up to a closed form. */
  lemma {:induction false} TotalWaitClosedForm(base: real, waits: nat)
    ensures TotalWait(base, waits) == base * (Pow2(waits) - 1) as real
  {
    if waits > 0 {
      TotalWaitClosedForm(base, waits - 1);
      var p := Pow2(waits - 1) as real;
      assert (Pow2(waits) - 1) as real == 2.0 * p - 1.0;
    }
  }

  lemma {:induction false} WaitBounded(base: real, waits: nat, retries: nat)
    requires base >= 0.0 && waits <= retries
    ensures TotalWait(base, waits) <= TotalWait(base, retries)
  {
    if waits < retries {
      WaitBounded(base, waits, retries - 1);
      assert Pow2(retries - 1) as real >= 0.0;
    }
  }

  method SettleWithRetry(breaker: NanopaymentCircuitBreaker, retries: int, base: real, now: real,
                         replies: nat -> Reply, clock: nat -> real)
    returns (outcome: Outcome, submits: nat, slept: real)
    modifies breaker
    ensures var c := OnRead(old(breaker.Value()), now);
            && (outcome == CircuitOpen <==> c.mode == Open)
            && (outcome == ReturnedNone <==> c.mode != Open && retries < 0)
            && breaker.Value() == HeardAll(c, replies, clock, retries, submits)
    ensures outcome == CircuitOpen ==> submits == 0
    ensures retries < 0 ==> submits == 0
    ensures retries >= 0 ==> submits <= retries + 1
    ensures outcome != CircuitOpen && retries >= 0 ==>
              && submits > 0
              && (Transient(replies(submits - 1)) ==> submits == retries + 1)
              && outcome == OutcomeOf(replies(submits - 1))
    ensures forall i: nat | i + 1 < submits :: Transient(replies(i))
    ensures slept == TotalWait(base, if submits == 0 then 0 else submits - 1)
    ensures retries >= 0 && base >= 0.0 ==> slept <= TotalWait(base, retries)
  {
    outcome, submits, slept := ReturnedNone, 0, 0.0;
    var available := breaker.IsAvailable(now);
    ghost var c := breaker.Value();
    if !available {
      if retries >= 0 && base >= 0.0 { WaitBounded(base, 0, retries); }
      return CircuitOpen, 0, 0.0;
    }
    var lastError: Option<Reply> := None;
    while submits < retries + 1
      invariant submits > 0 ==> submits <= retries + 1
      invariant breaker.Value() == HeardAll(c, replies, clock, retries, submits)
      invariant forall i: nat | i < submits :: Transient(replies(i))
      invariant lastError == if submits == 0 then None else Some(replies(submits - 1))
      invariant slept == TotalWait(base, if submits == retries + 1 && submits > 0 then retries else submits)
    {
      var reply, at := replies(submits), clock(submits);
      if base >= 0.0 { WaitBounded(base, submits, retries); }
      var ended, wait := Attempt(breaker, retries, base, submits, reply, at);
      submits := submits + 1;
      if ended {
        return OutcomeOf(reply), submits, slept;
      }
      lastError := Some(reply);
      slept := slept + wait;
    }
    if lastError.Some? {
      outcome := Raised(lastError.value);
    }
  }

  function OutcomeOf(reply: Reply): Outcome {
    if reply.Response? then Returned(reply.id) else Raised(reply)
  }

  /**
   * One submission: tells the breaker, then ends the loop or waits; timeouts on the last attempt fall out of the loop.
   */
  method Attempt(breaker: NanopaymentCircuitBreaker, retries: int, base: real, attempt: nat, reply: Reply, at: real)
    returns (ended: bool, wait: real)
    requires attempt <= retries
    modifies breaker
    ensures breaker.Value() == Heard(old(breaker.Value()), reply, at, attempt == retries)
    ensures ended <==> !Transient(reply) || (reply.SettlementError? && attempt == retries)
    ensures wait == if Transient(reply) && attempt < retries then Delay(base, attempt) else 0.0
  {
    ended, wait := true, 0.0;
    match reply {
      case Response(id) =>
        breaker.RecordSuccess();
      case NonceReused =>
        breaker.RecordFailure(at);
      case InsufficientBalance =>
        breaker.RecordFailure(at);
      case OtherException =>
      case SettlementError(transient) =>
        if transient {
          breaker.RecordError(at);
          if attempt < retries {
            ended, wait := false, Delay(base, attempt);
          } else {
            breaker.RecordFailure(at);
          }
        } else {
          breaker.RecordFailure(at);
        }
      case _ =>
        breaker.RecordError(at);
        ended := false;
        if attempt < retries {
          wait := Delay(base, attempt);
        }
    }
  }
}
