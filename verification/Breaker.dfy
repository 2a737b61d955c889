/** The circuit breaker and the retry loop that drives it, against any server and any clock that does
    not go back. */
module Breaker {
  import opened Values

  datatype BreakerState = Closed | Open | HalfOpen

  datatype Circuit = Circuit(threshold: nat, recovery: nat, failures: nat, openedAt: Option<nat>)

  function StateAt(c: Circuit, now: nat): BreakerState {
    if c.openedAt.None? then Closed
    else if now - c.openedAt.value >= c.recovery then HalfOpen
    else Open
  }

  predicate Allows(c: Circuit, now: nat) {
    StateAt(c, now) != Open
  }

  function Succeeded(c: Circuit): Circuit {
    c.(failures := 0, openedAt := None)
  }

  // The clock is read twice: to see the state, then for the stamp.
  function Failed(c: Circuit, seen: nat, stamped: nat): Circuit {
    if StateAt(c, seen) == HalfOpen then c.(openedAt := Some(stamped))
    else if c.failures + 1 >= c.threshold then c.(failures := c.failures + 1, openedAt := Some(stamped))
    else c.(failures := c.failures + 1)
  }

  class CircuitBreaker {
    const threshold: nat
    const recovery: nat
    var failures: nat
    var openedAt: Option<nat>

    constructor (threshold: nat, recovery: nat)
      ensures Now() == Circuit(threshold, recovery, 0, None)
    {
      this.threshold, this.recovery := threshold, recovery;
      failures, openedAt := 0, None;
    }

    function Now(): Circuit
      reads this
    {
      Circuit(threshold, recovery, failures, openedAt)
    }

    method Allow(now: nat) returns (r: bool)
      ensures r == Allows(Now(), now)
    {
      r := openedAt.None? || now - openedAt.value >= recovery;
    }

    method RecordSuccess()
      modifies this
      ensures Now() == Succeeded(old(Now()))
    {
      failures := 0;
      openedAt := None;
    }

    method RecordFailure(seen: nat, stamped: nat)
      modifies this
      ensures Now() == Failed(old(Now()), seen, stamped)
    {
      if openedAt.Some? && seen - openedAt.value >= recovery {
        openedAt := Some(stamped);
        return;
      }
      failures := failures + 1;
      if failures >= threshold {
        openedAt := Some(stamped);
      }
    }
  }

  // --- the retry loop -----------------------------------------------------------------------------------

  // What an attempt can meet: no answer in time, no connection, a status worth retrying, any other
  // client error, and a body that is or is not an object.
  datatype Reply = TimedOut | Unreachable | Retriable | ClientError | Body(isObject: bool)

  predicate Fails(r: Reply) {
    r.TimedOut? || r.Unreachable? || r.Retriable?
  }

  // One turn of the loop: when it asks the breaker, when a failure is seen and stamped, and what the
  // server would answer.
  datatype Turn = Turn(asked: nat, seen: nat, stamped: nat, reply: Reply)

  // The turns of a whole session, one after another on a clock that does not go back.
  type Session = nat -> Turn

  ghost predicate Onward(s: Session) {
    && (forall i :: s(i).asked <= s(i).seen <= s(i).stamped)
    && (forall i, j {:trigger s(i), s(j)} :: i < j ==> s(i).stamped <= s(j).asked)
  }

  datatype Result = Answered | CircuitOpen | ProtocolError | GaveUp(last: Reply)

  // Where a session stands: the breaker, the next turn, the attempts sent so far and the failures since
  // the last success, with the moment those first tripped the breaker.
  datatype Standing = Standing(circuit: Circuit, turn: nat, sent: nat, failed: nat, trip: Option<nat>)

  // An attempt that the breaker let through and that came to nothing.
  function AfterFailure(st: Standing, t: Turn): Standing {
    var circuit := Failed(st.circuit, t.seen, t.stamped);
    Standing(circuit, st.turn + 1, st.sent + 1, st.failed + 1,
             if st.trip.None? && circuit.openedAt.Some? then Some(t.stamped) else st.trip)
  }

  function AfterSuccess(st: Standing): Standing {
    Standing(Succeeded(st.circuit), st.turn + 1, st.sent + 1, 0, None)
  }

  function RequestFrom(s: Session, st: Standing, retries: nat, attempt: nat, last: Option<Reply>): (Standing, Result)
    requires attempt <= retries + 1 && (attempt > 0 ==> last.Some?)
    decreases retries + 1 - attempt
  {
    if attempt == retries + 1 then (st, GaveUp(last.value))
    else
      var t := s(st.turn);
      if !Allows(st.circuit, t.asked) then (st.(turn := st.turn + 1), CircuitOpen)
      else if Fails(t.reply) then RequestFrom(s, AfterFailure(st, t), retries, attempt + 1, Some(t.reply))
      else if t.reply.ClientError? then (st.(turn := st.turn + 1, sent := st.sent + 1), ProtocolError)
      else (AfterSuccess(st), if t.reply.isObject then Answered else ProtocolError)
  }

  function Request(s: Session, st: Standing, retries: nat): (Standing, Result) {
    RequestFrom(s, st, retries, 0, None)
  }

  class Transport {
    const session: Session
    const breaker: CircuitBreaker
    const retries: nat
    ghost var standing: Standing
    var turn: nat

    constructor (session: Session, breaker: CircuitBreaker, retries: nat)
      ensures this.session == session && this.breaker == breaker && this.retries == retries
      ensures standing == Standing(breaker.Now(), 0, 0, 0, None) && Valid()
    {
      this.session, this.breaker, this.retries := session, breaker, retries;
      turn := 0;
      standing := Standing(breaker.Now(), 0, 0, 0, None);
    }

    ghost predicate Valid()
      reads this, breaker
    {
      standing.circuit == breaker.Now() && standing.turn == turn
    }

    method Request() returns (result: Result)
      requires Valid()
      modifies this, breaker
      ensures Valid()
      ensures (standing, result) == RequestFrom(session, old(standing), retries, 0, None)
    {
      var last: Option<Reply> := None;
      for attempt := 0 to retries + 1
        invariant Valid() && (attempt > 0 ==> last.Some?)
        invariant RequestFrom(session, standing, retries, attempt, last) ==
                  RequestFrom(session, old(standing), retries, 0, None)
      {
        var t := session(turn);
        var allowed := breaker.Allow(t.asked);
        turn := turn + 1;
        if !allowed {
          standing := standing.(turn := turn);
          return CircuitOpen;
        }
        if t.reply.TimedOut? || t.reply.Unreachable? || t.reply.Retriable? {
          breaker.RecordFailure(t.seen, t.stamped);
          standing := AfterFailure(standing, t);
          last := Some(t.reply);
        } else if t.reply.ClientError? {
          standing := standing.(turn := turn, sent := standing.sent + 1);
          return ProtocolError;
        } else {
          breaker.RecordSuccess();
          standing := AfterSuccess(standing);
          return if t.reply.isObject then Answered else ProtocolError;
        }
      }
      result := GaveUp(last.value);
    }
  }

  // --- what holds over a session --------------------------------------------------------------------------

  // m recovery times.
  function Times(m: nat, recovery: nat): nat {
    if m == 0 then 0 else Times(m - 1, recovery) + recovery
  }

  lemma {:induction false} TimesIsProduct(m: nat, recovery: nat)
    ensures Times(m, recovery) == m * recovery
  {
    if m > 0 {
      TimesIsProduct(m - 1, recovery);
    }
  }

  // The breaker is closed exactly while the failures are below the threshold; and once it has tripped,
  // each further failure has put at least one recovery time between its stamp and the trip.
  ghost predicate Paced(s: Session, st: Standing) {
    var c := st.circuit;
    && c.threshold >= 1
    && (c.openedAt.None? <==> c.failures < c.threshold)
    && (c.openedAt.None? <==> st.trip.None?)
    && (c.openedAt.None? ==> st.failed == c.failures)
    && (c.openedAt.Some? ==>
          && st.failed >= c.threshold
          && st.trip.value + Times(st.failed - c.threshold, c.recovery) <= c.openedAt.value <= s(st.turn).asked)
  }

  lemma TurnsPass(s: Session, st: Standing)
    requires Onward(s) && Paced(s, st)
    ensures Paced(s, st.(turn := st.turn + 1, sent := st.sent + 1)) && Paced(s, st.(turn := st.turn + 1))
  {
    assert s(st.turn).asked <= s(st.turn).stamped <= s(st.turn + 1).asked;
  }

  lemma FailureKeepsPace(s: Session, st: Standing)
    requires Onward(s) && Paced(s, st) && Allows(st.circuit, s(st.turn).asked)
    ensures Paced(s, AfterFailure(st, s(st.turn)))
  {
    var t, c := s(st.turn), st.circuit;
    assert t.asked <= t.seen <= t.stamped <= s(st.turn + 1).asked;
    if c.openedAt.Some? {
      assert t.seen - c.openedAt.value >= c.recovery;
      assert Times(st.failed + 1 - c.threshold, c.recovery) == Times(st.failed - c.threshold, c.recovery) + c.recovery;
    }
  }

  /** Every request, whatever the server answers, keeps the pace. */
  lemma {:induction false} RequestsKeepPace(s: Session, st: Standing, retries: nat, attempt: nat, last: Option<Reply>)
    requires Onward(s) && Paced(s, st) && attempt <= retries + 1 && (attempt > 0 ==> last.Some?)
    ensures Paced(s, RequestFrom(s, st, retries, attempt, last).0)
    decreases retries + 1 - attempt
  {
    if attempt <= retries {
      var t := s(st.turn);
      TurnsPass(s, st);
      if Allows(st.circuit, t.asked) && Fails(t.reply) {
        FailureKeepsPace(s, st);
        RequestsKeepPace(s, AfterFailure(st, t), retries, attempt + 1, Some(t.reply));
      }
    }
  }

  /** A request sends at most one attempt more than its retries, gives up only on a failure, and, refused
      by the breaker at once, sends nothing. */
  lemma {:induction false} RequestsAreShort(s: Session, st: Standing, retries: nat, attempt: nat, last: Option<Reply>)
    requires attempt <= retries + 1 && (attempt > 0 ==> last.Some? && Fails(last.value))
    ensures var (st', result) := RequestFrom(s, st, retries, attempt, last);
            && st.sent <= st'.sent <= st.sent + (retries + 1 - attempt)
            && (result.GaveUp? ==> Fails(result.last) && st'.sent == st.sent + (retries + 1 - attempt))
            && (!Allows(st.circuit, s(st.turn).asked) && attempt <= retries ==>
                  result.CircuitOpen? && st'.sent == st.sent)
            && st'.circuit.threshold == st.circuit.threshold && st'.circuit.recovery == st.circuit.recovery
    decreases retries + 1 - attempt
  {
    if attempt <= retries {
      var t := s(st.turn);
      if Allows(st.circuit, t.asked) && Fails(t.reply) {
        RequestsAreShort(s, AfterFailure(st, t), retries, attempt + 1, Some(t.reply));
      }
    }
  }

  // The standing after n requests of a session.
  function After(s: Session, threshold: nat, recovery: nat, retries: nat, n: nat): Standing {
    if n == 0 then Standing(Circuit(threshold, recovery, 0, None), 0, 0, 0, None)
    else Request(s, After(s, threshold, recovery, retries, n - 1), retries).0
  }

  lemma {:induction false} SessionsKeepPace(s: Session, threshold: nat, recovery: nat, retries: nat, n: nat)
    requires Onward(s) && threshold >= 1
    ensures var st := After(s, threshold, recovery, retries, n);
            Paced(s, st) && st.circuit.threshold == threshold && st.circuit.recovery == recovery
  {
    if n > 0 {
      SessionsKeepPace(s, threshold, recovery, retries, n - 1);
      RequestsKeepPace(s, After(s, threshold, recovery, retries, n - 1), retries, 0, None);
      RequestsAreShort(s, After(s, threshold, recovery, retries, n - 1), retries, 0, None);
    }
  }

  /** Over any session: the failures since the last success stay below the threshold until the breaker
      trips; and by any later turn each failure past the threshold has had a whole recovery time to
      itself since that trip. */
  lemma FailuresAreBounded(s: Session, threshold: nat, recovery: nat, retries: nat, n: nat)
    requires Onward(s) && threshold >= 1
    ensures var st := After(s, threshold, recovery, retries, n);
            if st.trip.None? then st.failed < threshold
            else st.failed >= threshold && st.trip.value + (st.failed - threshold) * recovery <= s(st.turn).asked
  {
    SessionsKeepPace(s, threshold, recovery, retries, n);
    var st := After(s, threshold, recovery, retries, n);
    if st.trip.Some? {
      TimesIsProduct(st.failed - threshold, recovery);
    }
  }

  lemma {:induction false} AllSentFailed(s: Session, st: Standing, retries: nat, attempt: nat, last: Option<Reply>)
    requires (forall i :: Fails(s(i).reply)) && st.sent == st.failed && attempt <= retries + 1 &&
             (attempt > 0 ==> last.Some?)
    ensures RequestFrom(s, st, retries, attempt, last).0.sent == RequestFrom(s, st, retries, attempt, last).0.failed
    decreases retries + 1 - attempt
  {
    if attempt <= retries && Allows(st.circuit, s(st.turn).asked) {
      AllSentFailed(s, AfterFailure(st, s(st.turn)), retries, attempt + 1, Some(s(st.turn).reply));
    }
  }

  lemma {:induction false} OutageSendsFailures(s: Session, threshold: nat, recovery: nat, retries: nat, n: nat)
    requires forall i :: Fails(s(i).reply)
    ensures var st := After(s, threshold, recovery, retries, n); st.sent == st.failed
  {
    if n > 0 {
      OutageSendsFailures(s, threshold, recovery, retries, n - 1);
      AllSentFailed(s, After(s, threshold, recovery, retries, n - 1), retries, 0, None);
    }
  }

  /** So when every attempt fails, the attempts sent by a time t, however many requests are made, are at
      most the threshold plus the number of whole recovery times between the first trip and t. */
  lemma OutageIsBounded(s: Session, threshold: nat, recovery: nat, retries: nat, n: nat)
    requires Onward(s) && threshold >= 1 && forall i :: Fails(s(i).reply)
    ensures var st := After(s, threshold, recovery, retries, n);
            if st.trip.None? then st.sent < threshold
            else st.sent >= threshold && st.trip.value + (st.sent - threshold) * recovery <= s(st.turn).asked
  {
    OutageSendsFailures(s, threshold, recovery, retries, n);
    FailuresAreBounded(s, threshold, recovery, retries, n);
  }

  // --- recovery -------------------------------------------------------------------------------------------

  // The i-th turn from here on.
  function TurnAt(s: Session, st: Standing, i: nat): Turn {
    s(st.turn + i)
  }

  // No answer in time, no connection, or a status worth retrying.
  predicate IsFailure(r: Reply) {
    r == TimedOut || r == Unreachable || r == Retriable
  }

  // The first n turns from here on were sent, and came to nothing.
  predicate AllFail(s: Session, st: Standing, n: nat) {
    forall i :: 0 <= i < n ==> IsFailure(TurnAt(s, st, i).reply)
  }

  // The breaker was stamped less than its recovery time ago.
  predicate Shut(c: Circuit, now: nat) {
    c.openedAt.Some? && now < c.openedAt.value + c.recovery
  }

  // What a request comes to after n failed attempts.
  predicate EndsAfter(s: Session, st: Standing, retries: nat, last: Option<Reply>, n: nat, st': Standing, r: Result) {
    var t := TurnAt(s, st, n);
    match r
    case GaveUp(reply) => Some(reply) == (if n == 0 then last else Some(TurnAt(s, st, n - 1).reply))
    case CircuitOpen =>
      st'.sent == st.sent + n && Shut(st'.circuit, t.asked)
    case Answered =>
      t.reply == Body(true) && st'.sent == st.sent + n + 1 &&
      st'.circuit.openedAt.None? && st'.circuit.failures == 0
    case ProtocolError =>
      && st'.sent == st.sent + n + 1
      && (t.reply.ClientError? || (t.reply == Body(false) && st'.circuit.openedAt.None? && st'.circuit.failures == 0))
  }

  lemma {:induction false} RequestsEnd(s: Session, st: Standing, retries: nat, attempt: nat, last: Option<Reply>)
    returns (n: nat)
    requires attempt <= retries + 1 && (attempt > 0 ==> last.Some?)
    ensures var (st', r) := RequestFrom(s, st, retries, attempt, last);
            && attempt + n <= retries + 1 && AllFail(s, st, n)
            && (r.GaveUp? <==> attempt + n == retries + 1)
            && EndsAfter(s, st, retries, last, n, st', r)
            && (attempt <= retries && n == 0 ==> (r.CircuitOpen? <==> Shut(st.circuit, s(st.turn).asked)))
            && (attempt <= retries && !Shut(st.circuit, s(st.turn).asked) ==> st'.sent > st.sent)
    decreases retries + 1 - attempt
  {
    n := 0;
    if attempt <= retries {
      var t := s(st.turn);
      if Allows(st.circuit, t.asked) && Fails(t.reply) {
        var st1 := AfterFailure(st, t);
        var more := RequestsEnd(s, st1, retries, attempt + 1, Some(t.reply));
        n := more + 1;
        forall i | 0 <= i < n ensures IsFailure(TurnAt(s, st, i).reply) {
          assert i > 0 ==> TurnAt(s, st, i) == TurnAt(s, st1, i - 1);
        }
        assert TurnAt(s, st, n) == TurnAt(s, st1, more);
        assert more > 0 ==> TurnAt(s, st, n - 1) == TurnAt(s, st1, more - 1);
        SentOnly(s, st1, retries, attempt + 1, Some(t.reply));
      }
    }
  }

  lemma {:induction false} SentOnly(s: Session, st: Standing, retries: nat, attempt: nat, last: Option<Reply>)
    requires attempt <= retries + 1 && (attempt > 0 ==> last.Some?)
    ensures RequestFrom(s, st, retries, attempt, last).0.sent >= st.sent
    decreases retries + 1 - attempt
  {
    if attempt <= retries {
      var t := s(st.turn);
      if Allows(st.circuit, t.asked) && Fails(t.reply) {
        SentOnly(s, AfterFailure(st, t), retries, attempt + 1, Some(t.reply));
      }
    }
  }

  /** A request sends attempt after attempt while they fail, up to its retries; it ends with the first reply that
      does not fail, and then the breaker is closed if the server answered, or with the last failure, or where the
      breaker is open. It sends at least one unless the breaker is open when first asked, and that it is exactly
      within the recovery time after it was stamped. */
  lemma RequestsRecover(s: Session, st: Standing, retries: nat) returns (n: nat)
    ensures var (st', r) := Request(s, st, retries);
            && n <= retries + 1 && AllFail(s, st, n) && EndsAfter(s, st, retries, None, n, st', r)
            && (r.GaveUp? <==> n == retries + 1)
            && (st'.sent == st.sent <==> Shut(st.circuit, s(st.turn).asked))
  {
    n := RequestsEnd(s, st, retries, 0, None);
  }
}
