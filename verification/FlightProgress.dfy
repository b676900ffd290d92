/** The transactions of module FlightTransactions get somewhere: each statement is a step towards the end. */
module FlightProgress {
  import opened FlightDb
  import opened FlightTransactions

  /** The statements that a transaction still has before it, the commit included, if nothing ends it sooner. */
  function StatementsLeft(tx: Tx): nat {
    match tx
    case Reserving(_, _, _, step) =>
      (match step
       case ReserveBegun => 5
       case FlightLocked(_) => 4
       case BookingChecked(_) => 3
       case SeatsTaken(_) => 2
       case ReservationInserted(_, _) => 1)
    case Releasing(_, step) =>
      (match step
       case ReleaseBegun => 4
       case ReservationLocked(_) => 3
       case SeatsReturned(_, _) => 2
       case ReservationMarked(_, _) => 1)
    case Ended(_, _) => 0
  }

  lemma ReserveIsProgress(s: State, t: TxId)
    requires CanAct(s, Statement(t)) && s.txs[t].Reserving?
    ensures var s' := ReserveStatement(s, t);
            t in s'.txs && (s'.txs[t].Ended? || StatementsLeft(s'.txs[t]) == StatementsLeft(s.txs[t]) - 1)
  {
    hide Taken, Waits;
  }

  lemma ReleaseIsProgress(s: State, t: TxId)
    requires CanAct(s, Statement(t)) && s.txs[t].Releasing?
    ensures var s' := ReleaseStatement(s, t);
            t in s'.txs && (s'.txs[t].Ended? || StatementsLeft(s'.txs[t]) == StatementsLeft(s.txs[t]) - 1)
  {
    hide Taken, Waits;
  }

  lemma EndedHasNoneLeft(tx: Tx)
    ensures StatementsLeft(tx) == 0 <==> tx.Ended?
  {
  }

  /** Every statement that can be taken leaves one statement less, or ends its transaction. */
  lemma StatementIsProgress(s: State, t: TxId)
    requires CanAct(s, Statement(t))
    ensures var s' := Act(s, Statement(t));
            && t in s'.txs
            && (StatementsLeft(s'.txs[t]) == StatementsLeft(s.txs[t]) - 1 || s'.txs[t].Ended?)
            && StatementsLeft(s'.txs[t]) < StatementsLeft(s.txs[t])
  {
    hide ReserveStatement, ReleaseStatement, StatementsLeft, Waits;
    if s.txs[t].Reserving? {
      ReserveIsProgress(s, t);
    } else {
      ReleaseIsProgress(s, t);
    }
    EndedHasNoneLeft(s.txs[t]);
    EndedHasNoneLeft(Act(s, Statement(t)).txs[t]);
  }

  /** The statements that transaction `t` takes in the first `n` actions of a run. */
  function StatementsTaken(actions: seq<Action>, n: nat, t: TxId): nat
    requires n <= |actions|
  {
    if n == 0 then 0
    else StatementsTaken(actions, n - 1, t) + (if actions[n - 1] == Statement(t) then 1 else 0)
  }

  /** Other actions leave a transaction as it is, or roll it back. */
  lemma OthersGainNothing(s: State, a: Action, t: TxId)
    requires CanAct(s, a) && a != Statement(t)
    ensures t in s.txs ==> t in Act(s, a).txs && StatementsLeft(Act(s, a).txs[t]) <= StatementsLeft(s.txs[t])
    ensures t !in s.txs && t in Act(s, a).txs ==> StatementsLeft(Act(s, a).txs[t]) <= 5
  {
    if a.Statement? {
      if t in s.txs {
        OthersUntouched(s, a.tx, t);
      }
    }
  }

  /** In no run, however interleaved, does a transaction take more than five statements. */
  lemma {:induction false} AtMostFiveStatements(states: seq<State>, actions: seq<Action>, n: nat, t: TxId)
    requires IsRun(states, actions) && n < |states|
    ensures t in states[n].txs ==> StatementsTaken(actions, n, t) + StatementsLeft(states[n].txs[t]) <= 5
    ensures t !in states[n].txs ==> StatementsTaken(actions, n, t) == 0
  {
    hide StatementsLeft;
    if n > 0 {
      AtMostFiveStatements(states, actions, n - 1, t);
      if actions[n - 1] == Statement(t) {
        StatementIsProgress(states[n - 1], t);
      } else {
        OthersGainNothing(states[n - 1], actions[n - 1], t);
      }
    }
  }

  /** A transaction may be rolled back wherever it stands, and then it has written nothing. */
  lemma RollbackWritesNothing(s: State, t: TxId)
    requires Running(s, t)
    ensures CanAct(s, Rollback(t)) && Act(s, Rollback(t)).db == s.db
    ensures t in Act(s, Rollback(t)).txs && Act(s, Rollback(t)).txs[t] == Ended(RequestOf(s.txs[t]), Err(OtherError))
  {
  }

  /** Every answer that a transaction gave stands in the serial history, unless it failed without a reason. */
  lemma {:induction false} AnswersAreSerial(states: seq<State>, actions: seq<Action>, n: nat, t: TxId)
    requires IsRun(states, actions) && n < |states| && t in states[n].txs && states[n].txs[t].Ended?
    requires states[n].txs[t].result != Err(OtherError)
    ensures Call(states[n].txs[t].request, states[n].txs[t].result) in Serial(states, actions, n)
  {
    hide Act, CanAct, SerialStepOf, Safe;
    var s, a := states[n - 1], actions[n - 1];
    if t in s.txs && s.txs[t].Ended? {
      EndedStaysEnded(s, a, t);
      AnswersAreSerial(states, actions, n - 1, t);
    } else {
      RunIsSafe(states, actions, n - 1);
      EndsByStatement(s, a, t);
    }
  }

  lemma EndedStaysEnded(s: State, a: Action, t: TxId)
    requires CanAct(s, a) && t in s.txs && s.txs[t].Ended?
    ensures t in Act(s, a).txs && Act(s, a).txs[t] == s.txs[t]
  {
    if a.Statement? {
      OthersUntouched(s, a.tx, t);
    }
  }

  lemma OnlyItselfAnswers(s: State, a: Action, t: TxId)
    requires CanAct(s, a) && !(t in s.txs && s.txs[t].Ended?)
    requires t in Act(s, a).txs && Act(s, a).txs[t].Ended? && Act(s, a).txs[t].result != Err(OtherError)
    ensures a == Statement(t)
  {
    hide Taken, Waits;
    if a.Statement? && a.tx != t {
      if t in s.txs {
        OthersUntouched(s, a.tx, t);
      } else {
        NoneAppears(s, a.tx, t);
      }
    }
  }

  lemma NoneAppears(s: State, u: TxId, t: TxId)
    requires CanAct(s, Statement(u)) && t !in s.txs
    ensures t !in Act(s, Statement(u)).txs
  {
    hide Taken, Waits;
  }

  lemma EndsByStatement(s: State, a: Action, t: TxId)
    requires Safe(s) && CanAct(s, a) && !(t in s.txs && s.txs[t].Ended?)
    requires t in Act(s, a).txs && Act(s, a).txs[t].Ended? && Act(s, a).txs[t].result != Err(OtherError)
    ensures SerialStepOf(s, a) == [Call(Act(s, a).txs[t].request, Act(s, a).txs[t].result)]
  {
    hide Safe, Apply, ReserveStatement, ReleaseStatement, Waits;
    OnlyItselfAnswers(s, a, t);
    StatementRefinesCall(s, t);
  }

  // ---------------------------------------------------------------- a transaction that runs alone

  /** No other transaction holds a lock. */
  predicate LocksFree(s: State, t: TxId) {
    && (forall f :: f in s.flightLocks ==> s.flightLocks[f] == t)
    && (forall b :: b in s.bookingLocks ==> s.bookingLocks[b] == t)
  }

  /** A reservation that has not found its booking id has not been overtaken by another one with that id. */
  predicate NotOvertaken(s: State, t: TxId)
    requires t in s.txs
  {
    match s.txs[t]
    case Reserving(_, b, _, step) => step.ReserveBegun? || step.FlightLocked? || b !in s.db.reservations
    case _ => true
  }

  lemma AloneCanGoOn(s: State, t: TxId)
    requires Safe(s) && Running(s, t) && LocksFree(s, t)
    ensures CanAct(s, Statement(t))
  {
  }

  lemma ReserveStaysAlone(s: State, t: TxId)
    requires CanAct(s, Statement(t)) && s.txs[t].Reserving? && LocksFree(s, t) && NotOvertaken(s, t)
    ensures var s' := ReserveStatement(s, t); t in s'.txs && LocksFree(s', t)
    ensures var s' := ReserveStatement(s, t); s'.txs[t].Ended? || NotOvertaken(s', t)
  {
    hide Taken, Waits;
  }

  lemma ReleaseStaysAlone(s: State, t: TxId)
    requires CanAct(s, Statement(t)) && s.txs[t].Releasing? && LocksFree(s, t)
    ensures var s' := ReleaseStatement(s, t); t in s'.txs && LocksFree(s', t)
    ensures var s' := ReleaseStatement(s, t); s'.txs[t].Ended? || NotOvertaken(s', t)
  {
    hide Taken, Waits;
  }

  lemma AloneStaysAlone(s: State, t: TxId)
    requires CanAct(s, Statement(t)) && LocksFree(s, t) && NotOvertaken(s, t)
    ensures var s' := Act(s, Statement(t)); t in s'.txs && LocksFree(s', t)
    ensures var s' := Act(s, Statement(t)); s'.txs[t].Ended? || NotOvertaken(s', t)
  {
    hide ReserveStatement, ReleaseStatement, LocksFree, NotOvertaken, Waits;
    if s.txs[t].Reserving? {
      ReserveStaysAlone(s, t);
    } else {
      ReleaseStaysAlone(s, t);
    }
  }

  /** Up to `n` statements of transaction `t`, with nothing in between. */
  ghost function Alone(s: State, t: TxId, n: nat): State
    decreases n
  {
    if n == 0 || !CanAct(s, Statement(t)) then s else Alone(Act(s, Statement(t)), t, n - 1)
  }

  /** A transaction that nobody interrupts ends with the database and the answer of the call. */
  lemma {:induction false} AloneEnds(s: State, t: TxId, n: nat)
    requires Safe(s) && Running(s, t) && LocksFree(s, t) && NotOvertaken(s, t) && StatementsLeft(s.txs[t]) <= n
    ensures var s' := Alone(s, t, n);
            && t in s'.txs && s'.txs[t].Ended? && s'.txs[t].request == RequestOf(s.txs[t])
            && (s'.db, s'.txs[t].result) == Apply(s.db, RequestOf(s.txs[t]))
    decreases n
  {
    hide StatementsLeft, Safe, LocksFree, NotOvertaken, Apply;
    AloneCanGoOn(s, t);
    var s1 := Act(s, Statement(t));
    StatementIsProgress(s, t);
    StatementRefinesCall(s, t);
    NotOvertakenWins(s, t);
    AloneStaysAlone(s, t);
    StatementKeepsSafe(s, t);
    EndedHasNoneLeft(s.txs[t]);
    if s1.txs[t].Ended? {
      assert !CanAct(s1, Statement(t));
      assert Alone(s1, t, n - 1) == s1;
    } else {
      AloneEnds(s1, t, n - 1);
    }
  }

  lemma NotOvertakenWins(s: State, t: TxId)
    requires t in s.txs && NotOvertaken(s, t)
    ensures !LosesUniqueId(s, t)
  {
  }

  /** A call that starts while no locks are held, and is left alone, is answered within five statements. */
  lemma CallAloneIsAnswered(s: State, t: TxId, request: Request)
    requires Safe(s) && CanAct(s, Start(t, request)) && s.flightLocks == map[] && s.bookingLocks == map[]
    ensures var s' := Alone(Act(s, Start(t, request)), t, 5);
            t in s'.txs && s'.txs[t] == Ended(request, Apply(s.db, request).1) && s'.db == Apply(s.db, request).0
  {
    StartKeepsSafe(s, t, request);
    AloneEnds(Act(s, Start(t, request)), t, 5);
  }
}
