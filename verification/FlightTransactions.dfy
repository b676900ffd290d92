/**
 The two store transactions, statement by statement.

 Any number of transactions run at once.  A row taken with FOR UPDATE or written by UPDATE stays
 locked until its transaction ends; a booking id that is being inserted is held by the unique index
 until then; written rows become visible to others at the commit.
 */
module FlightTransactions {
  import opened FlightDb
  import Sums

  type TxId = nat

  /** Where a reservation stands, with the rows it has read or written so far. */
  datatype ReserveStep =
    | ReserveBegun
    | FlightLocked(seen: Flight)
    | BookingChecked(seen: Flight)
    | SeatsTaken(written: Flight)
    | ReservationInserted(written: Flight, inserted: Reservation)

  datatype ReleaseStep =
    | ReleaseBegun
    | ReservationLocked(held: Reservation)
    | SeatsReturned(held: Reservation, written: Flight)
    | ReservationMarked(marked: Reservation, written: Flight)

  datatype Tx =
    | Reserving(flight: FlightId, booking: BookingId, seats: nat, reserve: ReserveStep)
    | Releasing(booking: BookingId, release: ReleaseStep)
    | Ended(request: Request, result: Result)

  function RequestOf(tx: Tx): Request {
    match tx
    case Reserving(f, b, seats, _) => ReserveSeats(f, b, seats)
    case Releasing(b, _) => ReleaseReservation(b)
    case Ended(request, _) => request
  }

  function Begun(request: Request): Tx {
    match request
    case ReserveSeats(f, b, seats) => Reserving(f, b, seats, ReserveBegun)
    case ReleaseReservation(b) => Releasing(b, ReleaseBegun)
  }

  datatype State = State(
    db: Db,
    txs: map<TxId, Tx>,
    flightLocks: map<FlightId, TxId>,
    bookingLocks: map<BookingId, TxId>)

  datatype Action =
    | Start(tx: TxId, request: Request)
    | Statement(tx: TxId)
    | Rollback(tx: TxId)
    | InsertFlight(flight: FlightId, row: Flight)
    | SetStatus(flight: FlightId, status: FlightStatus)

  predicate Running(s: State, t: TxId) {
    t in s.txs && !s.txs[t].Ended?
  }

  /** The next statement of the transaction has to wait for a lock. */
  predicate Waits(s: State, tx: Tx) {
    match tx
    case Reserving(f, b, _, step) =>
      (match step
       case ReserveBegun => f in s.flightLocks
       case SeatsTaken(_) => b !in s.db.reservations && b in s.bookingLocks
       case _ => false)
    case Releasing(b, step) =>
      (match step
       case ReleaseBegun => b in s.db.reservations && b in s.bookingLocks
       case ReservationLocked(r) => r.flight in s.flightLocks
       case _ => false)
    case Ended(_, _) => false
  }

  predicate CanAct(s: State, a: Action) {
    match a
    case Start(t, request) => t !in s.txs && WellFormed(request)
    case Statement(t) => Running(s, t) && !Waits(s, s.txs[t])
    case Rollback(t) => Running(s, t)
    case InsertFlight(f, row) => f !in s.db.flights && f !in s.flightLocks && NewFlight(row)
    case SetStatus(f, _) => f in s.db.flights && f !in s.flightLocks
  }

  /** The end of a transaction releases its locks. */
  function Finished(s: State, t: TxId, db: Db, result: Result): State
    requires t in s.txs
  {
    State(db, s.txs[t := Ended(RequestOf(s.txs[t]), result)],
          map f | f in s.flightLocks && s.flightLocks[f] != t :: s.flightLocks[f],
          map b | b in s.bookingLocks && s.bookingLocks[b] != t :: s.bookingLocks[b])
  }

  function ReserveStatement(s: State, t: TxId): State
    requires CanAct(s, Statement(t)) && s.txs[t].Reserving?
  {
    var tx := s.txs[t];
    var Reserving(f, b, seats, step) := tx;
    match step
    case ReserveBegun =>
      // lock and read the flight row
      if f !in s.db.flights || s.db.flights[f].status != Scheduled then Finished(s, t, s.db, Err(NotFound))
      else if s.db.flights[f].available < seats then Finished(s, t, s.db, Err(NoSeats))
      else s.(txs := s.txs[t := tx.(reserve := FlightLocked(s.db.flights[f]))], flightLocks := s.flightLocks[f := t])
    case FlightLocked(seen) =>
      // look for the booking id
      if b in s.db.reservations then Finished(s, t, s.db, Err(AlreadyExists))
      else s.(txs := s.txs[t := tx.(reserve := BookingChecked(seen))])
    case BookingChecked(_) =>
      // take the seats and move the version
      if f !in s.db.flights then Finished(s, t, s.db, Err(OtherError))
      else s.(txs := s.txs[t := tx.(reserve := SeatsTaken(Taken(s.db.flights[f], seats)))])
    case SeatsTaken(written) =>
      // insert the reservation, unless its booking id was committed meanwhile
      if b in s.db.reservations then Finished(s, t, s.db, Err(OtherError))
      else s.(txs := s.txs[t := tx.(reserve := ReservationInserted(written, Reservation(f, seats, Active)))],
              bookingLocks := s.bookingLocks[b := t])
    case ReservationInserted(written, inserted) =>
      // commit both rows
      Finished(s, t, Db(s.db.flights[f := written], s.db.reservations[b := inserted]), Ok(inserted))
  }

  function ReleaseStatement(s: State, t: TxId): State
    requires CanAct(s, Statement(t)) && s.txs[t].Releasing?
  {
    var tx := s.txs[t];
    var Releasing(b, step) := tx;
    match step
    case ReleaseBegun =>
      // lock and read the reservation
      if b !in s.db.reservations || s.db.reservations[b].status != Active then Finished(s, t, s.db, Err(NotFound))
      else s.(txs := s.txs[t := tx.(release := ReservationLocked(s.db.reservations[b]))],
              bookingLocks := s.bookingLocks[b := t])
    case ReservationLocked(r) =>
      // lock the flight row, give the seats back and move the version
      if r.flight !in s.db.flights then Finished(s, t, s.db, Err(OtherError))
      else s.(txs := s.txs[t := tx.(release := SeatsReturned(r, Taken(s.db.flights[r.flight], -(r.seats as int))))],
              flightLocks := s.flightLocks[r.flight := t])
    case SeatsReturned(r, written) =>
      // mark the reservation
      s.(txs := s.txs[t := tx.(release := ReservationMarked(r.(status := Released), written))])
    case ReservationMarked(marked, written) =>
      // commit both rows
      Finished(s, t, Db(s.db.flights[marked.flight := written], s.db.reservations[b := marked]), Ok(marked))
  }

  function Act(s: State, a: Action): State
    requires CanAct(s, a)
  {
    match a
    case Start(t, request) => s.(txs := s.txs[t := Begun(request)])
    case Statement(t) => if s.txs[t].Reserving? then ReserveStatement(s, t) else ReleaseStatement(s, t)
    case Rollback(t) => Finished(s, t, s.db, Err(OtherError))
    case InsertFlight(f, row) => s.(db := s.db.(flights := s.db.flights[f := row]))
    case SetStatus(f, status) => s.(db := s.db.(flights := s.db.flights[f := s.db.flights[f].(status := status)]))
  }

  // ---------------------------------------------------------------- what locks protect

  predicate OwnsFlight(tx: Tx, f: FlightId) {
    match tx
    case Reserving(flight, _, _, step) => !step.ReserveBegun? && flight == f
    case Releasing(_, SeatsReturned(r, _)) => r.flight == f
    case Releasing(_, ReservationMarked(r, _)) => r.flight == f
    case _ => false
  }

  predicate OwnsBooking(tx: Tx, b: BookingId) {
    match tx
    case Reserving(_, booking, _, step) => step.ReservationInserted? && booking == b
    case Releasing(booking, step) => !step.ReleaseBegun? && booking == b
    case Ended(_, _) => false
  }

  predicate CanTake(db: Db, f: FlightId, seats: nat) {
    f in db.flights && db.flights[f].status == Scheduled && db.flights[f].available >= seats
  }

  predicate CanReturn(db: Db, b: BookingId, r: Reservation) {
    b in db.reservations && db.reservations[b] == r && r.status == Active && r.flight in db.flights
  }

  /** What a transaction remembers is still what the database says. */
  predicate Current(db: Db, tx: Tx) {
    match tx
    case Reserving(f, b, seats, step) =>
      (match step
       case ReserveBegun => true
       case FlightLocked(seen) => CanTake(db, f, seats) && seen == db.flights[f]
       case BookingChecked(seen) => CanTake(db, f, seats) && seen == db.flights[f]
       case SeatsTaken(written) => CanTake(db, f, seats) && written == Taken(db.flights[f], seats)
       case ReservationInserted(written, inserted) =>
         && CanTake(db, f, seats) && written == Taken(db.flights[f], seats)
         && b !in db.reservations && inserted == Reservation(f, seats, Active))
    case Releasing(b, step) =>
      (match step
       case ReleaseBegun => true
       case ReservationLocked(r) => CanReturn(db, b, r)
       case SeatsReturned(r, written) =>
         CanReturn(db, b, r) && written == Taken(db.flights[r.flight], -(r.seats as int))
       case ReservationMarked(r, written) =>
         && r.status == Released && CanReturn(db, b, r.(status := Active))
         && written == Taken(db.flights[r.flight], -(r.seats as int)))
    case Ended(_, _) => true
  }

  ghost predicate FlightsMatch(txs: map<TxId, Tx>, locks: map<FlightId, TxId>) {
    && (forall t, f :: t in txs && OwnsFlight(txs[t], f) ==> f in locks && locks[f] == t)
    && (forall f :: f in locks ==> locks[f] in txs && OwnsFlight(txs[locks[f]], f))
  }

  ghost predicate BookingsMatch(txs: map<TxId, Tx>, locks: map<BookingId, TxId>) {
    && (forall t, b :: t in txs && OwnsBooking(txs[t], b) ==> b in locks && locks[b] == t)
    && (forall b :: b in locks ==> locks[b] in txs && OwnsBooking(txs[locks[b]], b))
  }

  ghost predicate LocksMatch(s: State) {
    FlightsMatch(s.txs, s.flightLocks) && BookingsMatch(s.txs, s.bookingLocks)
  }

  ghost predicate Safe(s: State) {
    && (forall t :: t in s.txs ==> Current(s.db, s.txs[t]) && WellFormed(RequestOf(s.txs[t])))
    && LocksMatch(s)
    && Balanced(s.db)
  }

  // ---------------------------------------------------------------- refinement of the atomic call

  /** Another transaction committed the same booking id after this one had looked for it. */
  predicate LosesUniqueId(s: State, t: TxId) {
    t in s.txs && s.txs[t].Reserving? && s.txs[t].reserve.SeatsTaken? && s.txs[t].booking in s.db.reservations
  }

  /**
   A statement either leaves the committed database alone, or ends its transaction with exactly the
   database and the answer that the uninterrupted call gives at that instant.  The one exception is
   a booking id that another transaction committed meanwhile: then nothing is written.
   */
  lemma StatementRefinesCall(s: State, t: TxId)
    requires Safe(s) && CanAct(s, Statement(t))
    ensures var s' := Act(s, Statement(t));
            && t in s'.txs && RequestOf(s'.txs[t]) == RequestOf(s.txs[t])
            && (!s'.txs[t].Ended? ==> s'.db == s.db)
            && (s'.txs[t].Ended? && !LosesUniqueId(s, t) ==>
                  (s'.db, s'.txs[t].result) == Apply(s.db, RequestOf(s.txs[t])))
            && (LosesUniqueId(s, t) ==> s'.db == s.db && s'.txs[t] == Ended(RequestOf(s.txs[t]), Err(OtherError)))
  {
    assert Current(s.db, s.txs[t]);
  }

  // ---------------------------------------------------------------- safety

  /** Committing rows that a transaction has not locked leaves its memory right. */
  lemma CommitElsewhere(db: Db, tx: Tx, f: FlightId, row: Flight, b: BookingId, r: Reservation)
    requires Current(db, tx) && !OwnsFlight(tx, f) && !OwnsBooking(tx, b)
    ensures Current(Db(db.flights[f := row], db.reservations[b := r]), tx)
  {
  }

  lemma OperatorElsewhere(db: Db, tx: Tx, f: FlightId, row: Flight)
    requires Current(db, tx) && !OwnsFlight(tx, f)
    ensures Current(db.(flights := db.flights[f := row]), tx)
  {
  }

  lemma FinishKeepsFlights(txs: map<TxId, Tx>, locks: map<FlightId, TxId>, t: TxId, tx: Tx)
    requires FlightsMatch(txs, locks) && t in txs && tx.Ended?
    ensures FlightsMatch(txs[t := tx], map f | f in locks && locks[f] != t :: locks[f])
  {
    assert forall u :: u in txs && u != t ==> txs[t := tx][u] == txs[u];
  }

  lemma FinishKeepsBookings(txs: map<TxId, Tx>, locks: map<BookingId, TxId>, t: TxId, tx: Tx)
    requires BookingsMatch(txs, locks) && t in txs && tx.Ended?
    ensures BookingsMatch(txs[t := tx], map b | b in locks && locks[b] != t :: locks[b])
  {
    assert forall u :: u in txs && u != t ==> txs[t := tx][u] == txs[u];
  }

  lemma FinishKeepsLocks(s: State, t: TxId, db: Db, result: Result)
    requires LocksMatch(s) && t in s.txs
    ensures LocksMatch(Finished(s, t, db, result))
  {
    hide FlightsMatch, BookingsMatch;
    var tx := Ended(RequestOf(s.txs[t]), result);
    FinishKeepsFlights(s.txs, s.flightLocks, t, tx);
    FinishKeepsBookings(s.txs, s.bookingLocks, t, tx);
  }

  /** A transaction takes some free flight locks, or none. */
  lemma TakeFlights(txs: map<TxId, Tx>, locks: map<FlightId, TxId>, t: TxId, tx: Tx, taken: set<FlightId>)
    requires FlightsMatch(txs, locks) && t in txs
    requires forall f :: f in taken ==> f !in locks
    requires forall f :: OwnsFlight(tx, f) <==> OwnsFlight(txs[t], f) || f in taken
    ensures FlightsMatch(txs[t := tx], locks + (map f | f in taken :: t))
  {
  }

  /** A transaction takes some free booking locks, or none. */
  lemma TakeBookings(txs: map<TxId, Tx>, locks: map<BookingId, TxId>, t: TxId, tx: Tx, taken: set<BookingId>)
    requires BookingsMatch(txs, locks) && t in txs
    requires forall b :: b in taken ==> b !in locks
    requires forall b :: OwnsBooking(tx, b) <==> OwnsBooking(txs[t], b) || b in taken
    ensures BookingsMatch(txs[t := tx], locks + (map b | b in taken :: t))
  {
  }

  lemma StepKeepsLocks(s: State, t: TxId, tx: Tx, flights: set<FlightId>, bookings: set<BookingId>, s': State)
    requires LocksMatch(s) && t in s.txs && s'.txs == s.txs[t := tx]
    requires forall f :: f in flights ==> f !in s.flightLocks
    requires forall b :: b in bookings ==> b !in s.bookingLocks
    requires s'.flightLocks == s.flightLocks + (map f | f in flights :: t)
    requires s'.bookingLocks == s.bookingLocks + (map b | b in bookings :: t)
    requires forall f :: OwnsFlight(tx, f) <==> OwnsFlight(s.txs[t], f) || f in flights
    requires forall b :: OwnsBooking(tx, b) <==> OwnsBooking(s.txs[t], b) || b in bookings
    ensures LocksMatch(s')
  {
    hide FlightsMatch, BookingsMatch;
    TakeFlights(s.txs, s.flightLocks, t, tx, flights);
    TakeBookings(s.txs, s.bookingLocks, t, tx, bookings);
  }

  /** The locks that a reservation's statement takes: its flight with the first, its booking with the insertion. */
  lemma ReserveTakes(s: State, t: TxId) returns (flights: set<FlightId>, bookings: set<BookingId>)
    requires CanAct(s, Statement(t)) && s.txs[t].Reserving? && !ReserveStatement(s, t).txs[t].Ended?
    ensures var s' := ReserveStatement(s, t);
            && (forall f :: f in flights ==> f !in s.flightLocks)
            && (forall b :: b in bookings ==> b !in s.bookingLocks)
            && s'.flightLocks == s.flightLocks + (map f | f in flights :: t)
            && s'.bookingLocks == s.bookingLocks + (map b | b in bookings :: t)
            && (forall f :: OwnsFlight(s'.txs[t], f) <==> OwnsFlight(s.txs[t], f) || f in flights)
            && (forall b :: OwnsBooking(s'.txs[t], b) <==> OwnsBooking(s.txs[t], b) || b in bookings)
  {
    hide Taken;
    flights := if s.txs[t].reserve.ReserveBegun? then {s.txs[t].flight} else {};
    bookings := if s.txs[t].reserve.SeatsTaken? then {s.txs[t].booking} else {};
  }

  lemma ReserveKeepsLocks(s: State, t: TxId)
    requires LocksMatch(s) && CanAct(s, Statement(t)) && s.txs[t].Reserving?
    ensures LocksMatch(ReserveStatement(s, t))
  {
    hide LocksMatch, Taken, OwnsFlight, OwnsBooking, Waits;
    var s' := ReserveStatement(s, t);
    if s'.txs[t].Ended? {
      FinishKeepsLocks(s, t, s'.db, s'.txs[t].result);
    } else {
      var flights, bookings := ReserveTakes(s, t);
      StepKeepsLocks(s, t, s'.txs[t], flights, bookings, s');
    }
  }

  /** The locks that a release's statement takes: its booking with the first, its flight with the update. */
  lemma ReleaseTakes(s: State, t: TxId) returns (flights: set<FlightId>, bookings: set<BookingId>)
    requires CanAct(s, Statement(t)) && s.txs[t].Releasing? && !ReleaseStatement(s, t).txs[t].Ended?
    ensures var s' := ReleaseStatement(s, t);
            && (forall f :: f in flights ==> f !in s.flightLocks)
            && (forall b :: b in bookings ==> b !in s.bookingLocks)
            && s'.flightLocks == s.flightLocks + (map f | f in flights :: t)
            && s'.bookingLocks == s.bookingLocks + (map b | b in bookings :: t)
            && (forall f :: OwnsFlight(s'.txs[t], f) <==> OwnsFlight(s.txs[t], f) || f in flights)
            && (forall b :: OwnsBooking(s'.txs[t], b) <==> OwnsBooking(s.txs[t], b) || b in bookings)
  {
    hide Taken;
    flights := if s.txs[t].release.ReservationLocked? then {s.txs[t].release.held.flight} else {};
    bookings := if s.txs[t].release.ReleaseBegun? then {s.txs[t].booking} else {};
  }

  lemma ReleaseKeepsLocks(s: State, t: TxId)
    requires LocksMatch(s) && CanAct(s, Statement(t)) && s.txs[t].Releasing?
    ensures LocksMatch(ReleaseStatement(s, t))
  {
    hide LocksMatch, Taken, OwnsFlight, OwnsBooking, Waits;
    var s' := ReleaseStatement(s, t);
    if s'.txs[t].Ended? {
      FinishKeepsLocks(s, t, s'.db, s'.txs[t].result);
    } else {
      var flights, bookings := ReleaseTakes(s, t);
      StepKeepsLocks(s, t, s'.txs[t], flights, bookings, s');
    }
  }

  /** A statement that ends in a commit writes one flight row and one reservation, both locked. */
  lemma CommitIsLocked(s: State, t: TxId) returns (f: FlightId, row: Flight, r: Reservation)
    requires CanAct(s, Statement(t)) && Act(s, Statement(t)).db != s.db
    ensures var b := RequestOf(s.txs[t]).booking;
            && OwnsFlight(s.txs[t], f) && OwnsBooking(s.txs[t], b)
            && Act(s, Statement(t)).db == Db(s.db.flights[f := row], s.db.reservations[b := r])
  {
    var tx := s.txs[t];
    if tx.Reserving? {
      assert tx.reserve.ReservationInserted?;
      f, row, r := tx.flight, tx.reserve.written, tx.reserve.inserted;
    } else {
      assert tx.release.ReservationMarked?;
      f, row, r := tx.release.marked.flight, tx.release.written, tx.release.marked;
    }
  }

  lemma OthersUntouched(s: State, t: TxId, u: TxId)
    requires CanAct(s, Statement(t)) && u in s.txs && u != t
    ensures u in Act(s, Statement(t)).txs && Act(s, Statement(t)).txs[u] == s.txs[u]
  {
  }

  /** Two transactions never hold the same lock. */
  lemma Exclusion(s: State, t: TxId, u: TxId, f: FlightId, b: BookingId)
    requires LocksMatch(s) && t in s.txs && u in s.txs && u != t
    requires OwnsFlight(s.txs[t], f) && OwnsBooking(s.txs[t], b)
    ensures !OwnsFlight(s.txs[u], f) && !OwnsBooking(s.txs[u], b)
  {
    assert f in s.flightLocks && s.flightLocks[f] == t;
    assert b in s.bookingLocks && s.bookingLocks[b] == t;
  }

  lemma StatementKeepsOthers(s: State, t: TxId, u: TxId, db': Db)
    requires LocksMatch(s) && CanAct(s, Statement(t)) && u in s.txs && u != t
    requires Current(s.db, s.txs[u]) && db' == Act(s, Statement(t)).db
    ensures Current(db', s.txs[u])
  {
    if db' != s.db {
      var f, row, r := CommitIsLocked(s, t);
      var b := RequestOf(s.txs[t]).booking;
      Exclusion(s, t, u, f, b);
      CommitElsewhere(s.db, s.txs[u], f, row, b, r);
    }
  }

  lemma ReserveKeepsOwn(s: State, t: TxId)
    requires CanAct(s, Statement(t)) && Current(s.db, s.txs[t]) && s.txs[t].Reserving?
    ensures var s' := ReserveStatement(s, t);
            t in s'.txs && s'.txs.Keys == s.txs.Keys
            && Current(s'.db, s'.txs[t]) && RequestOf(s'.txs[t]) == RequestOf(s.txs[t])
  {
  }

  lemma ReleaseKeepsOwn(s: State, t: TxId)
    requires CanAct(s, Statement(t)) && Current(s.db, s.txs[t]) && s.txs[t].Releasing? && Balanced(s.db)
    ensures var s' := ReleaseStatement(s, t);
            t in s'.txs && s'.txs.Keys == s.txs.Keys
            && Current(s'.db, s'.txs[t]) && RequestOf(s'.txs[t]) == RequestOf(s.txs[t])
  {
  }

  lemma StatementKeepsBalanced(s: State, t: TxId)
    requires Safe(s) && CanAct(s, Statement(t))
    ensures Balanced(Act(s, Statement(t)).db)
  {
    StatementRefinesCall(s, t);
    assert WellFormed(RequestOf(s.txs[t]));
    ApplyKeepsBalanced(s.db, RequestOf(s.txs[t]));
  }

  lemma StatementKeepsSafe(s: State, t: TxId)
    requires Safe(s) && CanAct(s, Statement(t))
    ensures Safe(Act(s, Statement(t)))
  {
    var s' := Act(s, Statement(t));
    StatementKeepsBalanced(s, t);
    if s.txs[t].Reserving? {
      ReserveKeepsLocks(s, t);
      ReserveKeepsOwn(s, t);
    } else {
      ReleaseKeepsLocks(s, t);
      ReleaseKeepsOwn(s, t);
    }
    forall u | u in s'.txs
      ensures Current(s'.db, s'.txs[u]) && WellFormed(RequestOf(s'.txs[u]))
    {
      if u != t {
        OthersUntouched(s, t, u);
        StatementKeepsOthers(s, t, u, s'.db);
      }
    }
  }

  lemma StartKeepsSafe(s: State, t: TxId, request: Request)
    requires Safe(s) && CanAct(s, Start(t, request))
    ensures Safe(Act(s, Start(t, request)))
  {
    hide Balanced, LocksMatch;
    BeginKeepsLocks(s, t, request);
  }

  lemma BeginKeepsLocks(s: State, t: TxId, request: Request)
    requires LocksMatch(s) && t !in s.txs
    ensures LocksMatch(s.(txs := s.txs[t := Begun(request)]))
  {
    assert forall u :: u in s.txs ==> s.txs[t := Begun(request)][u] == s.txs[u];
  }

  lemma RollbackKeepsSafe(s: State, t: TxId)
    requires Safe(s) && CanAct(s, Rollback(t))
    ensures Safe(Act(s, Rollback(t)))
  {
    hide Balanced, LocksMatch;
    FinishKeepsLocks(s, t, s.db, Err(OtherError));
  }

  lemma OtherActionKeepsSafe(s: State, a: Action)
    requires Safe(s) && CanAct(s, a) && !a.Statement?
    ensures Safe(Act(s, a))
  {
    hide Safe;
    match a
    case Start(t, request) => StartKeepsSafe(s, t, request);
    case Rollback(t) => RollbackKeepsSafe(s, t);
    case InsertFlight(f, row) => OperatorKeepsSafe(s, f, row);
    case SetStatus(f, status) => OperatorKeepsSafe(s, f, s.db.flights[f].(status := status));
  }

  lemma OperatorKeepsSafe(s: State, f: FlightId, row: Flight)
    requires Safe(s) && f !in s.flightLocks
    requires if f in s.db.flights then exists st :: row == s.db.flights[f].(status := st) else NewFlight(row)
    ensures Safe(s.(db := s.db.(flights := s.db.flights[f := row])))
  {
    hide Balanced;
    OperatorKeepsBalanced(s.db, f, row);
    forall u | u in s.txs
      ensures Current(s.db.(flights := s.db.flights[f := row]), s.txs[u])
    {
      OperatorElsewhere(s.db, s.txs[u], f, row);
    }
  }

  ghost predicate IsRun(states: seq<State>, actions: seq<Action>) {
    && |states| == |actions| + 1
    && states[0].txs == map[] && states[0].flightLocks == map[] && states[0].bookingLocks == map[]
    && Balanced(states[0].db)
    && forall i :: 0 <= i < |actions| ==> CanAct(states[i], actions[i]) && states[i + 1] == Act(states[i], actions[i])
  }

  lemma {:induction false} RunIsSafe(states: seq<State>, actions: seq<Action>, n: nat)
    requires IsRun(states, actions) && n < |states|
    ensures Safe(states[n])
  {
    if n > 0 {
      RunIsSafe(states, actions, n - 1);
      if actions[n - 1].Statement? {
        StatementKeepsSafe(states[n - 1], actions[n - 1].tx);
      } else {
        OtherActionKeepsSafe(states[n - 1], actions[n - 1]);
      }
    }
  }

  // ---------------------------------------------------------------- serial histories

  datatype SerialStep = Call(request: Request, result: Result) | Operator(flight: FlightId, row: Flight)

  /** The database after uninterrupted calls and operator edits, one after the other. */
  function Replay(db: Db, steps: seq<SerialStep>): Db {
    if steps == [] then db
    else
      var before := Replay(db, steps[..|steps| - 1]);
      match steps[|steps| - 1]
      case Call(request, _) => Apply(before, request).0
      case Operator(f, row) => before.(flights := before.flights[f := row])
  }

  /** Every call of a serial history got the answer that the uninterrupted call gives. */
  ghost predicate AnswersRight(db: Db, steps: seq<SerialStep>) {
    forall i :: 0 <= i < |steps| && steps[i].Call? ==>
      steps[i].result == Apply(Replay(db, steps[..i]), steps[i].request).1
  }

  /** What an action adds to the serial history: a call is placed where its transaction ends. */
  function SerialStepOf(s: State, a: Action): seq<SerialStep>
    requires CanAct(s, a)
  {
    match a
    case Start(_, _) => []
    case Rollback(_) => []
    case Statement(t) =>
      var s' := Act(s, a);
      if t in s'.txs && s'.txs[t].Ended? && !LosesUniqueId(s, t) then [Call(RequestOf(s.txs[t]),
          s'.txs[t].result)] else []
    case InsertFlight(f, row) => [Operator(f, row)]
    case SetStatus(f, status) => [Operator(f, s.db.flights[f].(status := status))]
  }

  ghost function Serial(states: seq<State>, actions: seq<Action>, n: nat): seq<SerialStep>
    requires IsRun(states, actions) && n < |states|
  {
    if n == 0 then [] else Serial(states, actions, n - 1) + SerialStepOf(states[n - 1], actions[n - 1])
  }

  lemma SerialStepIsRight(s: State, a: Action)
    requires Safe(s) && CanAct(s, a)
    ensures var step := SerialStepOf(s, a);
            && |step| <= 1
            && Act(s, a).db == (if step == [] then s.db
                                else if step[0].Call? then Apply(s.db, step[0].request).0
                                else s.db.(flights := s.db.flights[step[0].flight := step[0].row]))
            && (step != [] && step[0].Call? ==> step[0].result == Apply(s.db, step[0].request).1)
  {
    if a.Statement? {
      StatementRefinesCall(s, a.tx);
    }
  }

  /**
   Serializability: every interleaving amounts to uninterrupted calls in the order in which the
   transactions ended, with the same answers.
   */
  lemma {:induction false} RunIsSerial(states: seq<State>, actions: seq<Action>, n: nat)
    requires IsRun(states, actions) && n < |states|
    ensures Replay(states[0].db, Serial(states, actions, n)) == states[n].db
    ensures AnswersRight(states[0].db, Serial(states, actions, n))
  {
    if n > 0 {
      RunIsSerial(states, actions, n - 1);
      RunIsSafe(states, actions, n - 1);
      SerialStepIsRight(states[n - 1], actions[n - 1]);
      var before := Serial(states, actions, n - 1);
      var step := SerialStepOf(states[n - 1], actions[n - 1]);
      var all := before + step;
      assert all == Serial(states, actions, n);
      assert all[..|before|] == before;
      forall i | 0 <= i < |all| && all[i].Call?
        ensures all[i].result == Apply(Replay(states[0].db, all[..i]), all[i].request).1
      {
        if i < |before| {
          assert all[..i] == before[..i];
        }
      }
      if step == [] {
        assert all == before;
      }
    }
  }

  /** In every interleaving, every committed state conserves seats, so no flight is oversold. */
  lemma NeverOversold(states: seq<State>, actions: seq<Action>, n: nat, f: FlightId)
    requires IsRun(states, actions) && n < |states| && f in states[n].db.flights
    ensures var db := states[n].db;
            && db.flights[f].available + SeatsHeld(db, f) == db.flights[f].total
            && PassesChecks(db.flights[f])
            && db.flights[f].version == db.flights[f].info.firstVersion + Sums.Total(db.reservations, VersionMoves(f))
  {
    RunIsSafe(states, actions, n);
  }

  /** Every row that a transaction is about to commit already passes the checks of the schema. */
  lemma WrittenRowsPassChecks(states: seq<State>, actions: seq<Action>, n: nat, t: TxId)
    requires IsRun(states, actions) && n < |states| && t in states[n].txs
    ensures var tx := states[n].txs[t];
            && (tx.Reserving? && tx.reserve.SeatsTaken? ==> PassesChecks(tx.reserve.written))
            && (tx.Releasing? && tx.release.SeatsReturned? ==> PassesChecks(tx.release.written))
  {
    RunIsSafe(states, actions, n);
    var s := states[n];
    var tx := s.txs[t];
    assert Current(s.db, tx);
    if tx.Releasing? && tx.release.SeatsReturned? {
      Sums.TotalSplit(s.db.reservations, ActiveSeats(tx.release.held.flight), tx.booking);
    }
  }

  // ---------------------------------------------------------------- progress

  lemma UnblockedWriter(s: State, t: TxId)
    requires Safe(s) && Running(s, t)
    requires s.txs[t].Releasing? ==> s.txs[t].release.SeatsReturned? || s.txs[t].release.ReservationMarked?
    requires s.txs[t].Reserving? ==> !s.txs[t].reserve.ReserveBegun?
    ensures exists u :: CanAct(s, Statement(u))
  {
    if CanAct(s, Statement(t)) {
    } else {
      var u := s.bookingLocks[s.txs[t].booking];
      assert Current(s.db, s.txs[u]);
      assert CanAct(s, Statement(u));
    }
  }

  /** No deadlock: as long as some transaction is unfinished, one of them can go on. */
  lemma NoDeadlock(states: seq<State>, actions: seq<Action>, n: nat, t: TxId)
    requires IsRun(states, actions) && n < |states| && Running(states[n], t)
    ensures exists u :: CanAct(states[n], Statement(u))
  {
    RunIsSafe(states, actions, n);
    var s := states[n];
    if !CanAct(s, Statement(t)) {
      var tx := s.txs[t];
      if tx.Releasing? && tx.release.ReleaseBegun? {
        var u := s.bookingLocks[tx.booking];
        if !CanAct(s, Statement(u)) {
          assert Current(s.db, s.txs[u]);
          UnblockedWriter(s, s.flightLocks[s.txs[u].release.held.flight]);
        }
      } else if tx.Releasing? {
        UnblockedWriter(s, s.flightLocks[tx.release.held.flight]);
      } else if tx.reserve.ReserveBegun? {
        UnblockedWriter(s, s.flightLocks[tx.flight]);
      } else {
        UnblockedWriter(s, t);
      }
    }
  }
}
