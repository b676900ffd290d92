/**
 The bounded retry loop around every remote call, and many such loops sharing one breaker.
 */
module RetryClient {
  import opened Grpc
  import opened CircuitBreakers
  import Sums

  const FIRST_PAUSE: nat := 100

  /** The pause after attempt `k`, counted from 0: each is twice the one before. */
  function Pause(k: nat): nat {
    if k == 0 then FIRST_PAUSE else 2 * Pause(k - 1)
  }

  /** All pauses between that many attempts. */
  function Pauses(attempts: nat): nat {
    if attempts <= 1 then 0 else Pauses(attempts - 1) + Pause(attempts - 2)
  }

  /** Three attempts, 100 and 200 milliseconds apart. */
  lemma RetryTiming()
    ensures MAX_ATTEMPTS == 3
    ensures Pauses(1) == 0 && Pauses(2) == 100 && Pauses(3) == 100 + 200
  {
    assert Pause(1) == 200;
  }

  /** What the breaker is told when the call is over. */
  function ReportOf(code: Code, now: int): (report: Event)
    ensures report.Success? <==> code == OK
    ensures BreakerFailure(report) <==> TransportFailure(code)
    ensures !report.Allow? && (report.Failure? ==> report.now == now)
  {
    if code == OK then Success else Failure(now, code)
  }

  /**
   One guarded call.  `replies[k]` is how attempt `k` ends if it is made; `start` and `end` are
   the clock readings of the breaker at the admission and at the report.  `slept` is the sum of the
   pauses in milliseconds.
   */
  method CallWithRetry(cb: CircuitBreaker?, replies: seq<Code>, start: int, end: int)
    returns (result: Code, attempts: nat, slept: nat)
    requires |replies| == MAX_ATTEMPTS
    modifies cb
    ensures attempts <= MAX_ATTEMPTS
    ensures attempts == 0 <==> cb != null && !Admits(old(cb.Snapshot()), start)
    ensures attempts == 0 ==> result == Unavailable && cb.Snapshot() == old(cb.Snapshot())
    ensures attempts > 0 ==> result == replies[attempts - 1] && !Retries(attempts - 1, result)
    ensures forall k :: 0 <= k < attempts - 1 ==> TransportFailure(replies[k])
    ensures slept == Pauses(attempts)
    ensures cb != null && attempts > 0 ==>
      cb.Snapshot() == Step(cb.cfg, Step(cb.cfg, old(cb.Snapshot()), Event.Allow(start)), ReportOf(result, end))
  {
    attempts, slept := 0, 0;
    if cb != null {
      var admitted := cb.Allow(start);
      if !admitted {
        return Unavailable, 0, 0;
      }
    }
    label admission:
    var backoff := FIRST_PAUSE;
    result := Unavailable;
    while attempts < MAX_ATTEMPTS
      invariant attempts < MAX_ATTEMPTS
      invariant forall k :: 0 <= k < attempts ==> TransportFailure(replies[k])
      invariant backoff == Pause(attempts)
      invariant slept == Pauses(attempts + 1)
      invariant cb != null ==> cb.Snapshot() == old@admission(cb.Snapshot())
    {
      result := replies[attempts];
      if result == OK {
        attempts := attempts + 1;
        if cb != null {
          cb.OnSuccess();
        }
        return;
      }
      if !Retries(attempts, result) {
        attempts := attempts + 1;
        break;
      }
      slept := slept + backoff;
      backoff := backoff * 2;
      attempts := attempts + 1;
    }
    if cb != null {
      cb.OnFailure(end, result);
    }
  }

  // ---------------------------------------------------------------- concurrent calls

  datatype Stage = Trying | Reporting(code: Code) | Finished

  /** A call that was admitted.  `attempts` counts the requests it has put on the wire. */
  datatype Call = Call(attempts: nat, stage: Stage)

  /**
   Any number of calls sharing a breaker.  `history` lists what the breaker was called with; a call
   is named after the position of its admission in it.
   */
  datatype Client = Client(history: seq<Event>, calls: map<nat, Call>)

  const IDLE := Client([], map[])

  datatype Move =
    | Begin(now: int)
    | Attempt(call: nat, code: Code)
    | Report(call: nat, now: int)

  ghost predicate CanMove(c: Client, m: Move) {
    match m
    case Begin(now) => true
    case Attempt(k, code) => k in c.calls && c.calls[k].stage.Trying?
    case Report(k, now) => k in c.calls && c.calls[k].stage.Reporting?
  }

  ghost function Moved(cfg: Config, c: Client, m: Move): Client
    requires CanMove(c, m)
  {
    match m
    case Begin(now) =>
      var n := |c.history|;
      Client(c.history + [Event.Allow(now)],
             if Admits(After(cfg, c.history, n), now) then c.calls[n := Call(0, Trying)] else c.calls)
    case Attempt(k, code) =>
      var made := c.calls[k].attempts + 1;
      c.(calls := c.calls[k := Call(made, if Retries(c.calls[k].attempts, code) then Trying else Reporting(code))])
    case Report(k, now) =>
      Client(c.history + [ReportOf(c.calls[k].stage.code, now)],
             c.calls[k := c.calls[k].(stage := Finished)])
  }

  /** The breaker hears of every admission and of every report, and of nothing else. */
  lemma BreakerHears(cfg: Config, c: Client, k: nat, now: int, code: Code)
    ensures Moved(cfg, c, Begin(now)).history == c.history + [Event.Allow(now)]
    ensures (|c.history| in Moved(cfg, c, Begin(now)).calls && |c.history| !in c.calls ==>
               Admits(After(cfg, c.history, |c.history|), now))
    ensures (Admits(After(cfg, c.history, |c.history|), now) ==>
               |c.history| in Moved(cfg, c, Begin(now)).calls
               && Moved(cfg, c, Begin(now)).calls[|c.history|] == Call(0, Trying))
    ensures CanMove(c, Attempt(k, code)) ==> Moved(cfg, c, Attempt(k, code)).history == c.history
    ensures (CanMove(c, Report(k, now)) ==>
               && Moved(cfg, c, Report(k, now)).history == c.history + [ReportOf(c.calls[k].stage.code, now)]
               && k in Moved(cfg, c, Report(k, now)).calls && Moved(cfg, c, Report(k, now)).calls[k].stage == Finished)
  {
  }

  /** Call `k` makes its attempts in a row, and they end with these codes. */
  ghost function Tried(cfg: Config, c: Client, k: nat, replies: seq<Code>, n: nat): Client
    requires n <= |replies| && k in c.calls
    ensures k in Tried(cfg, c, k, replies, n).calls
  {
    if n == 0 then c
    else
      var before := Tried(cfg, c, k, replies, n - 1);
      if CanMove(before, Attempt(k, replies[n - 1])) then Moved(cfg, before, Attempt(k, replies[n - 1])) else before
  }

  /** A call that was admitted makes attempts as `CallWithRetry` does, and then reports the end of the last one. */
  lemma {:induction false} CallTries(cfg: Config, c: Client, k: nat, replies: seq<Code>, n: nat)
    requires k in c.calls && c.calls[k] == Call(0, Trying) && n <= |replies| == MAX_ATTEMPTS
    ensures var call := Tried(cfg, c, k, replies, n).calls[k];
            && call.attempts <= n
            && (forall j :: 0 <= j < call.attempts - 1 ==> Retries(j, replies[j]))
            && (call.stage == Trying ==>
                  call.attempts == n && (n > 0 ==> Retries(n - 1, replies[n - 1])))
            && (call.stage != Trying ==>
                  && call.attempts > 0 && call.stage == Reporting(replies[call.attempts - 1])
                  && !Retries(call.attempts - 1, replies[call.attempts - 1]))
    ensures n == MAX_ATTEMPTS ==> Tried(cfg, c, k, replies, n).calls[k].stage.Reporting?
  {
    if n > 0 {
      CallTries(cfg, c, k, replies, n - 1);
    }
  }

  /** The client after the first `n` moves of a schedule. */
  ghost predicate Schedule(cfg: Config, moves: seq<Move>, states: seq<Client>) {
    && |states| == |moves| + 1
    && states[0] == IDLE
    && forall i :: 0 <= i < |moves| ==> CanMove(states[i], moves[i]) && states[i + 1] == Moved(cfg, states[i], moves[i])
  }

  /** Every call was admitted, and has put at most three requests on the wire. */
  ghost predicate Bounded(cfg: Config, c: Client) {
    forall k :: k in c.calls ==>
      && Admission(cfg, c.history, k)
      && c.calls[k].attempts <= MAX_ATTEMPTS
      && (c.calls[k].stage.Trying? ==> c.calls[k].attempts < MAX_ATTEMPTS)
  }

  lemma {:induction false} AfterPrefix(cfg: Config, h: seq<Event>, e: Event, n: nat)
    requires n <= |h|
    ensures After(cfg, h + [e], n) == After(cfg, h, n)
  {
    if n > 0 {
      AfterPrefix(cfg, h, e, n - 1);
    }
  }

  lemma MoveKeepsBounded(cfg: Config, c: Client, m: Move)
    requires Bounded(cfg, c) && CanMove(c, m)
    ensures Bounded(cfg, Moved(cfg, c, m))
  {
    var c' := Moved(cfg, c, m);
    if !m.Attempt? {
      var e := c'.history[|c.history|];
      assert c'.history == c.history + [e];
      forall k | k in c'.calls
        ensures Admission(cfg, c'.history, k)
      {
        AfterPrefix(cfg, c.history, e, if k in c.calls then k else |c.history|);
      }
    }
  }

  lemma {:induction false} ScheduleBounded(cfg: Config, moves: seq<Move>, states: seq<Client>, n: nat)
    requires Schedule(cfg, moves, states) && n < |states|
    ensures Bounded(cfg, states[n])
  {
    if n > 0 {
      ScheduleBounded(cfg, moves, states, n - 1);
      MoveKeepsBounded(cfg, states[n - 1], moves[n - 1]);
    }
  }

  ghost function RequestsOf(admitted: set<nat>, k: nat, call: Call): nat {
    if k in admitted then call.attempts else 0
  }

  /** The requests put on the wire by the calls admitted at the given positions. */
  ghost function Requests(admitted: set<nat>): (nat, Call) -> nat {
    (k: nat, call: Call) => RequestsOf(admitted, k, call)
  }

  lemma {:induction false} RequestsBound(calls: map<nat, Call>, admitted: set<nat>)
    requires forall k :: k in calls ==> calls[k].attempts <= MAX_ATTEMPTS
    ensures Sums.Total(calls, Requests(admitted)) <= MAX_ATTEMPTS * |admitted|
    decreases |calls|
  {
    var f := Requests(admitted);
    if calls != map[] {
      var k :| k in calls && Sums.Total(calls, f) == f(k, calls[k]) + Sums.Total(calls - {k}, f);
      Sums.RemoveShrinks(calls, k);
      var rest := calls - {k};
      if k in admitted {
        RequestsBound(rest, admitted - {k});
        assert |admitted| == |admitted - {k}| + 1;
        Sums.TotalDominated(rest, f, rest, Requests(admitted - {k}));
      } else {
        RequestsBound(rest, admitted);
      }
    }
  }

  /**
   However the calls interleave, and however late they report: while the breaker stays tripped, the
   calls admitted in a window of time send at most three requests per timeout, plus three.
   */
  lemma TrippedTrafficBound(cfg: Config, moves: seq<Move>, states: seq<Client>, start: nat, from: int, length: nat)
    requires cfg.Sound() && Schedule(cfg, moves, states)
    requires ClockMonotone(states[|moves|].history) && TrippedSince(cfg, states[|moves|].history, start)
    ensures var c := states[|moves|];
            Sums.Total(c.calls, Requests(AdmissionsIn(cfg, c.history, start, from, length)))
              <= MAX_ATTEMPTS * (length / (cfg.openTimeout + 1) + 1)
  {
    var c := states[|moves|];
    ScheduleBounded(cfg, moves, states, |moves|);
    TrippedAdmissionBound(cfg, c.history, start, from, length);
    RequestsBound(c.calls, AdmissionsIn(cfg, c.history, start, from, length));
  }
}
