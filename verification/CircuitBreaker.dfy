/**
 The circuit breaker in front of the flight service.

 `Step` says what one call of `Allow`, `OnSuccess` or `OnFailure` does to the breaker; class
 `CircuitBreaker` does it in place.  The lemmas describe the breaker through its history alone:
 the sequence of calls it received, in the order in which they held its mutex, with late reports
 from earlier admissions anywhere.
 */
module CircuitBreakers {
  import opened Grpc
  import Windows

  const SECOND := 1_000_000_000

  datatype Phase = Closed | Open | HalfOpen

  datatype Breaker = Breaker(phase: Phase, failureCount: nat, openUntil: int, halfOpenInFlight: bool)

  datatype Config = Config(failureThreshold: int, openTimeout: int) {
    predicate Sound() {
      failureThreshold >= 1 && openTimeout >= 1
    }
  }

  /** Non-positive settings are replaced, so every breaker runs with a sound configuration. */
  function Normalize(cfg: Config): (sound: Config)
    ensures sound.Sound()
    ensures cfg.Sound() ==> sound == cfg
    ensures sound.failureThreshold == 5 || sound.failureThreshold == cfg.failureThreshold
    ensures sound.openTimeout == 20_000_000_000 || sound.openTimeout == cfg.openTimeout
  {
    Config(if cfg.failureThreshold <= 0 then 5 else cfg.failureThreshold,
           if cfg.openTimeout <= 0 then 20 * SECOND else cfg.openTimeout)
  }

  const FRESH := Breaker(Closed, 0, 0, false)

  datatype Event = Allow(now: int) | Success | Failure(now: int, code: Code)

  /** Whether `Allow` answers true. */
  predicate Admits(b: Breaker, now: int) {
    match b.phase
    case Closed => true
    case Open => now > b.openUntil
    case HalfOpen => !b.halfOpenInFlight
  }

  function Step(cfg: Config, b: Breaker, e: Event): Breaker {
    match e
    case Allow(now) =>
      if b.phase != Closed && Admits(b, now) then b.(phase := HalfOpen, halfOpenInFlight := true) else b
    case Success =>
      if b.phase == HalfOpen then Breaker(Closed, 0, b.openUntil, false) else b.(failureCount := 0)
    case Failure(now, code) =>
      if !TransportFailure(code) then b
      else match b.phase
        case HalfOpen => Breaker(Open, b.failureCount, now + cfg.openTimeout, false)
        case Closed =>
          if b.failureCount + 1 >= cfg.failureThreshold
          then Breaker(Open, b.failureCount + 1, now + cfg.openTimeout, b.halfOpenInFlight)
          else b.(failureCount := b.failureCount + 1)
        case Open => b
  }

  class CircuitBreaker {
    var state: Phase
    var failureCount: nat
    var openUntil: int
    var halfOpenInFlight: bool
    const cfg: Config

    ghost function Snapshot(): Breaker
      reads this
    {
      Breaker(state, failureCount, openUntil, halfOpenInFlight)
    }

    constructor (cfg: Config)
      ensures Snapshot() == FRESH && this.cfg == Normalize(cfg)
    {
      var sound := cfg;
      if sound.failureThreshold <= 0 {
        sound := sound.(failureThreshold := 5);
      }
      if sound.openTimeout <= 0 {
        sound := sound.(openTimeout := 20 * SECOND);
      }
      state, failureCount, openUntil, halfOpenInFlight := Closed, 0, 0, false;
      this.cfg := sound;
    }

    method Allow(now: int) returns (admitted: bool)
      modifies this
      ensures admitted == Admits(old(Snapshot()), now)
      ensures Snapshot() == Step(cfg, old(Snapshot()), Event.Allow(now))
    {
      if state == Closed {
        return true;
      }
      if state == Open {
        if now <= openUntil {
          return false;
        }
        state := HalfOpen;
        halfOpenInFlight := false;
      }
      if halfOpenInFlight {
        return false;
      }
      halfOpenInFlight := true;
      return true;
    }

    method OnSuccess()
      modifies this
      ensures Snapshot() == Step(cfg, old(Snapshot()), Success)
    {
      if state == HalfOpen {
        state := Closed;
        failureCount := 0;
        halfOpenInFlight := false;
        return;
      }
      failureCount := 0;
    }

    method OnFailure(now: int, code: Code)
      modifies this
      ensures Snapshot() == Step(cfg, old(Snapshot()), Failure(now, code))
    {
      if !TransportFailure(code) {
        return;
      }
      match state
      case HalfOpen =>
        openUntil := now + cfg.openTimeout;
        state := Open;
        halfOpenInFlight := false;
      case Closed =>
        failureCount := failureCount + 1;
        if failureCount >= cfg.failureThreshold {
          openUntil := now + cfg.openTimeout;
          state := Open;
        }
      case Open =>
    }
  }

  // ---------------------------------------------------------------- histories

  /** The breaker after the first `n` calls of a history. */
  ghost function After(cfg: Config, h: seq<Event>, n: nat): Breaker
    requires n <= |h|
  {
    if n == 0 then FRESH else Step(cfg, After(cfg, h, n - 1), h[n - 1])
  }

  predicate BreakerFailure(e: Event) {
    e.Failure? && TransportFailure(e.code)
  }

  /** A report that says whether the flight service can be reached. */
  predicate Conclusive(e: Event) {
    e.Success? || BreakerFailure(e)
  }

  /** How many transport failures the history holds after its last success. */
  ghost function FailuresSinceSuccess(h: seq<Event>, n: nat): nat
    requires n <= |h|
  {
    if n == 0 || h[n - 1].Success? then 0
    else FailuresSinceSuccess(h, n - 1) + (if BreakerFailure(h[n - 1]) then 1 else 0)
  }

  /** While closed, the counter is exactly what the history says, and below the threshold. */
  lemma {:induction false} ClosedCountsFailures(cfg: Config, h: seq<Event>, n: nat)
    requires cfg.Sound() && n <= |h|
    ensures var b := After(cfg, h, n);
            && (b.phase == Closed ==> b.failureCount == FailuresSinceSuccess(h, n) < cfg.failureThreshold)
            && (b.phase == HalfOpen <==> b.halfOpenInFlight)
  {
    if n > 0 {
      ClosedCountsFailures(cfg, h, n - 1);
    }
  }

  /** A closed breaker opens on exactly the report that brings the history to the threshold. */
  lemma OpensExactlyAtThreshold(cfg: Config, h: seq<Event>, n: nat)
    requires cfg.Sound() && n < |h|
    requires After(cfg, h, n).phase == Closed
    ensures After(cfg, h, n + 1).phase != Closed <==>
            BreakerFailure(h[n]) && FailuresSinceSuccess(h, n + 1) == cfg.failureThreshold
    ensures After(cfg, h, n + 1).phase != HalfOpen
  {
    ClosedCountsFailures(cfg, h, n);
  }

  /** Call number `p` let a probe through, and nothing conclusive was reported since. */
  ghost predicate UnansweredProbe(cfg: Config, h: seq<Event>, n: nat, p: nat)
    requires n <= |h|
  {
    && p < n
    && h[p].Allow?
    && After(cfg, h, p).phase == Open
    && h[p].now > After(cfg, h, p).openUntil
    && forall i :: p < i < n ==> !Conclusive(h[i])
  }

  /**
   The breaker is half open exactly while a probe is unanswered, and then it refuses every call.
   So a probe that ends without a conclusive report blocks all traffic until some other
   call, admitted earlier, reports.
   */
  lemma {:induction false} HalfOpenIffUnansweredProbe(cfg: Config, h: seq<Event>, n: nat)
    requires cfg.Sound() && n <= |h|
    ensures After(cfg, h, n).phase == HalfOpen <==> exists p :: UnansweredProbe(cfg, h, n, p)
    ensures After(cfg, h, n).phase == HalfOpen ==> forall now :: !Admits(After(cfg, h, n), now)
  {
    ClosedCountsFailures(cfg, h, n);
    if n > 0 {
      ClosedCountsFailures(cfg, h, n - 1);
      HalfOpenIffUnansweredProbe(cfg, h, n - 1);
      if After(cfg, h, n).phase == HalfOpen {
        if After(cfg, h, n - 1).phase == HalfOpen {
          var p :| UnansweredProbe(cfg, h, n - 1, p);
          assert UnansweredProbe(cfg, h, n, p);
        } else {
          assert UnansweredProbe(cfg, h, n, n - 1);
        }
      }
      if p: nat :| UnansweredProbe(cfg, h, n, p) {
        if p < n - 1 {
          assert UnansweredProbe(cfg, h, n - 1, p);
        }
      }
    }
  }

  /** A breaker that is not closed closes on exactly the success that comes while a probe is unanswered. */
  lemma ClosesIff(cfg: Config, h: seq<Event>, n: nat)
    requires cfg.Sound() && n < |h|
    requires After(cfg, h, n).phase != Closed
    ensures After(cfg, h, n + 1).phase == Closed <==> h[n].Success? && exists p :: UnansweredProbe(cfg, h, n, p)
  {
    HalfOpenIffUnansweredProbe(cfg, h, n);
  }

  /** Report `m` opened the breaker, and no call was admitted since. */
  ghost predicate OpenedBy(cfg: Config, h: seq<Event>, n: nat, m: nat)
    requires n <= |h|
  {
    && m < n && BreakerFailure(h[m])
    && After(cfg, h, m).phase != Open
    && forall i :: m < i <= n ==> After(cfg, h, i).phase == Open
  }

  /**
   An open breaker was opened by a report of a failure, and admits exactly the calls that come more
   than a timeout after it.
   */
  lemma {:induction false} OpenAdmitsIff(cfg: Config, h: seq<Event>, n: nat, now: int) returns (m: nat)
    requires cfg.Sound() && n <= |h| && After(cfg, h, n).phase == Open
    ensures OpenedBy(cfg, h, n, m)
    ensures Admits(After(cfg, h, n), now) <==> now - h[m].now > cfg.openTimeout
  {
    if After(cfg, h, n - 1).phase == Open {
      m := OpenAdmitsIff(cfg, h, n - 1, now);
    } else {
      m := n - 1;
    }
  }

  /** An open breaker stays open except for a call that it admits, and that becomes its probe. */
  lemma LeavesOpenIff(cfg: Config, h: seq<Event>, n: nat)
    requires cfg.Sound() && n < |h| && After(cfg, h, n).phase == Open
    ensures After(cfg, h, n + 1).phase != Open <==> Admission(cfg, h, n)
    ensures Admission(cfg, h, n) ==> UnansweredProbe(cfg, h, n + 1, n)
    ensures After(cfg, h, n + 1).phase == Open ==> After(cfg, h, n + 1).openUntil == After(cfg, h, n).openUntil
  {
  }

  /** A closed breaker admits every call. */
  lemma ClosedAdmits(cfg: Config, h: seq<Event>, n: nat, now: int)
    requires n <= |h| && After(cfg, h, n).phase == Closed
    ensures Admits(After(cfg, h, n), now)
  {
  }

  /** A failed probe opens the breaker again for a whole timeout; a call later than that is admitted. */
  lemma FailedProbeReopens(cfg: Config, h: seq<Event>, n: nat, p: nat, now: int)
    requires cfg.Sound() && n < |h| && UnansweredProbe(cfg, h, n, p) && BreakerFailure(h[n])
    ensures After(cfg, h, n + 1).phase == Open
    ensures Admits(After(cfg, h, n + 1), now) <==> now - h[n].now > cfg.openTimeout
  {
    HalfOpenIffUnansweredProbe(cfg, h, n);
  }

  /**
   There is no way out of half open but a conclusive report: as long as none comes after a probe, not
   one more call is admitted, however much time passes.
   */
  lemma StuckWithoutReport(cfg: Config, h: seq<Event>, p: nat, n: nat, now: int)
    requires cfg.Sound() && p < n <= |h| && UnansweredProbe(cfg, h, n, p)
    ensures !Admits(After(cfg, h, n), now)
    ensures n < |h| ==> !Admission(cfg, h, n)
  {
    HalfOpenIffUnansweredProbe(cfg, h, n);
  }

  /** Failures in a row count up to the threshold. */
  lemma {:induction false} FailuresOpen(cfg: Config, h: seq<Event>, n: nat)
    requires cfg.Sound() && n <= |h| && n <= cfg.failureThreshold
    requires forall i :: 0 <= i < n ==> h[i] == Failure(0, Unavailable)
    ensures After(cfg, h, n) == if n < cfg.failureThreshold then FRESH.(failureCount := n)
                                else Breaker(Open, n, cfg.openTimeout, false)
  {
    if n > 0 {
      FailuresOpen(cfg, h, n - 1);
    }
  }

  /** For every configuration: enough failures, then a probe whose call ends in an error of another kind. */
  lemma ProbeCanGetStuck(cfg: Config) returns (h: seq<Event>)
    requires cfg.Sound()
    ensures |h| == cfg.failureThreshold + 2 && h[|h| - 1] == Failure(cfg.openTimeout + 1, Internal)
    ensures UnansweredProbe(cfg, h, |h|, cfg.failureThreshold) && After(cfg, h, |h|).phase == HalfOpen
  {
    var n, probe := cfg.failureThreshold, cfg.openTimeout + 1;
    h := seq(n, _ => Failure(0, Unavailable)) + [Event.Allow(probe), Failure(probe, Internal)];
    FailuresOpen(cfg, h, n);
    assert UnansweredProbe(cfg, h, |h|, n);
    HalfOpenIffUnansweredProbe(cfg, h, |h|);
  }

  // ---------------------------------------------------------------- traffic while tripped

  /** The breaker reads one clock, which never goes back. */
  ghost predicate ClockMonotone(h: seq<Event>) {
    forall i, j :: 0 <= i < j < |h| && !h[i].Success? && !h[j].Success? ==> h[i].now <= h[j].now
  }

  /** From call `start` on, the breaker is never closed. */
  ghost predicate TrippedSince(cfg: Config, h: seq<Event>, start: nat) {
    forall n :: start <= n <= |h| ==> After(cfg, h, n).phase != Closed
  }

  ghost predicate Admission(cfg: Config, h: seq<Event>, i: nat) {
    i < |h| && h[i].Allow? && Admits(After(cfg, h, i), h[i].now)
  }

  /** The instants of a history; a success report carries none. */
  ghost function Times(h: seq<Event>): (at: seq<int>)
    ensures |at| == |h| && forall i :: 0 <= i < |h| && !h[i].Success? ==> at[i] == h[i].now
  {
    seq(|h|, i requires 0 <= i < |h| => if h[i].Success? then 0 else h[i].now)
  }

  ghost function AdmissionsIn(cfg: Config, h: seq<Event>, start: nat, from: int, length: nat): set<nat> {
    set i: nat | start <= i < |h| && Admission(cfg, h, i) && from <= h[i].now <= from + length
  }

  /** After an admission the breaker waits for the probe, and then for a whole timeout. */
  lemma {:induction false} WaitsAfterAdmission(cfg: Config, h: seq<Event>, start: nat, i: nat, n: nat)
    requires cfg.Sound() && ClockMonotone(h) && TrippedSince(cfg, h, start)
    requires start <= i < n <= |h| && Admission(cfg, h, i)
    ensures var b := After(cfg, h, n);
            b.phase == HalfOpen || (b.phase == Open && b.openUntil >= h[i].now + cfg.openTimeout)
    decreases n
  {
    assert After(cfg, h, n).phase != Closed && After(cfg, h, n - 1).phase != Closed;
    if n > i + 1 {
      WaitsAfterAdmission(cfg, h, start, i, n - 1);
      ClosedCountsFailures(cfg, h, n - 1);
    }
  }

  /** Two admissions while the breaker stays tripped are more than a timeout apart. */
  lemma AdmissionsFarApart(cfg: Config, h: seq<Event>, start: nat, i: nat, j: nat)
    requires cfg.Sound() && ClockMonotone(h) && TrippedSince(cfg, h, start)
    requires start <= i < j && Admission(cfg, h, i) && Admission(cfg, h, j)
    ensures h[j].now - h[i].now > cfg.openTimeout
  {
    WaitsAfterAdmission(cfg, h, start, i, j);
    ClosedCountsFailures(cfg, h, j);
  }

  /** While tripped, a window of time admits at most one call per timeout, plus one. */
  lemma TrippedAdmissionBound(cfg: Config, h: seq<Event>, start: nat, from: int, length: nat)
    requires cfg.Sound() && ClockMonotone(h) && TrippedSince(cfg, h, start)
    ensures |AdmissionsIn(cfg, h, start, from, length)| <= length / (cfg.openTimeout + 1) + 1
  {
    var admitted := AdmissionsIn(cfg, h, start, from, length);
    var at := Times(h);
    forall i, j | i in admitted && j in admitted && i < j
      ensures at[j] - at[i] >= cfg.openTimeout + 1
    {
      AdmissionsFarApart(cfg, h, start, i, j);
    }
    Windows.WindowBound(at, admitted, cfg.openTimeout + 1, from, length);
  }
}
