/**
 The flight database, and what one committed call does to it.

 A UUID is modelled as its number.  `Reserve` and `Release` are the whole effect of a committed
 transaction; module FlightTransactions runs the transactions statement by statement and proves
 that they amount to this.
 */
module FlightDb {
  import opened Sums

  type FlightId = nat
  type BookingId = nat

  datatype FlightStatus = Scheduled | Departed | FlightCancelled | Completed

  /** What nobody changes after the row is inserted: columns, and the version it was inserted with. */
  datatype FlightInfo = FlightInfo(
    origin: nat, destination: nat, flightDate: nat, departure: nat, priceCents: nat, firstVersion: nat)
  {
    /** The calendar day of the departure time, which is not the stored flight date. */
    function DepartureDay(): nat {
      departure / SECONDS_PER_DAY
    }
  }

  const SECONDS_PER_DAY: nat := 86_400

  datatype Flight = Flight(info: FlightInfo, total: nat, available: int, status: FlightStatus, version: nat)

  datatype ReservationStatus = Active | Released

  datatype Reservation = Reservation(flight: FlightId, seats: nat, status: ReservationStatus)

  datatype Db = Db(flights: map<FlightId, Flight>, reservations: map<BookingId, Reservation>)

  datatype StoreError = NotFound | NoSeats | AlreadyExists | OtherError

  datatype Result = Ok(reservation: Reservation) | Err(error: StoreError)

  datatype Request = ReserveSeats(flight: FlightId, booking: BookingId,
      seats: nat) | ReleaseReservation(booking: BookingId)

  /** The row after seats were taken from it (or, with a negative number, given back). */
  function Taken(row: Flight, seats: int): Flight {
    row.(available := row.available - seats, version := row.version + 1)
  }

  function Reserve(db: Db, f: FlightId, b: BookingId, seats: nat): (Db, Result) {
    if f !in db.flights || db.flights[f].status != Scheduled then (db, Err(NotFound))
    else if db.flights[f].available < seats then (db, Err(NoSeats))
    else if b in db.reservations then (db, Err(AlreadyExists))
    else
      var r := Reservation(f, seats, Active);
      (Db(db.flights[f := Taken(db.flights[f], seats)], db.reservations[b := r]), Ok(r))
  }

  function Release(db: Db, b: BookingId): (Db, Result) {
    if b !in db.reservations || db.reservations[b].status != Active then (db, Err(NotFound))
    else
      var r := db.reservations[b].(status := Released);
      var flights := if r.flight in db.flights
                     then db.flights[r.flight := Taken(db.flights[r.flight], -(r.seats as int))] else db.flights;
      (Db(flights, db.reservations[b := r]), Ok(r))
  }

  function Apply(db: Db, request: Request): (Db, Result) {
    match request
    case ReserveSeats(f, b, seats) => Reserve(db, f, b, seats)
    case ReleaseReservation(b) => Release(db, b)
  }

  /** The server rejects a request for no seats before it reaches the store. */
  predicate WellFormed(request: Request) {
    request.ReserveSeats? ==> request.seats > 0
  }

  // ---------------------------------------------------------------- seat accounting

  ghost function ActiveSeats(f: FlightId): (BookingId, Reservation) -> nat {
    (b: BookingId, r: Reservation) => if r.flight == f && r.status == Active then r.seats else 0
  }

  /** Each reservation of a flight has moved its version once, and each release once more. */
  ghost function VersionMoves(f: FlightId): (BookingId, Reservation) -> nat {
    (b: BookingId, r: Reservation) => if r.flight != f then 0 else if r.status == Active then 1 else 2
  }

  ghost function SeatsHeld(db: Db, f: FlightId): nat {
    Total(db.reservations, ActiveSeats(f))
  }

  /** The accounts of one flight. */
  ghost predicate RowBalanced(db: Db, f: FlightId)
    requires f in db.flights
  {
    && db.flights[f].available + SeatsHeld(db, f) == db.flights[f].total
    && db.flights[f].available >= 0
    && db.flights[f].version == db.flights[f].info.firstVersion + Total(db.reservations, VersionMoves(f))
  }

  /** Seats are conserved and versions count the committed calls, for every flight. */
  ghost predicate Balanced(db: Db) {
    && (forall b :: b in db.reservations ==> db.reservations[b].flight in db.flights && db.reservations[b].seats > 0)
    && (forall f :: f in db.flights ==> RowBalanced(db, f))
  }

  /** The schema's checks on the seats of a flight. */
  predicate PassesChecks(row: Flight) {
    0 <= row.available <= row.total
  }

  lemma ApplyKeepsRow(db: Db, request: Request, f: FlightId)
    requires Balanced(db) && Apply(db, request).1.Ok? && f in db.flights
    ensures f in Apply(db, request).0.flights && RowBalanced(Apply(db, request).0, f)
  {
    var result := Apply(db, request).1;
    TotalUpdate(db.reservations, ActiveSeats(f), request.booking, result.reservation);
    TotalUpdate(db.reservations, VersionMoves(f), request.booking, result.reservation);
    assert RowBalanced(db, f);
  }

  lemma ApplyKeepsBalanced(db: Db, request: Request)
    requires Balanced(db) && WellFormed(request)
    ensures Balanced(Apply(db, request).0)
  {
    hide RowBalanced, SeatsHeld;
    var (db', result) := Apply(db, request);
    if result.Ok? {
      forall f | f in db'.flights
        ensures RowBalanced(db', f)
      {
        ApplyKeepsRow(db, request, f);
      }
    }
  }

  /** A new flight starts with all its seats free, at any version. */
  predicate NewFlight(row: Flight) {
    row.total > 0 && row.available == row.total && row.version == row.info.firstVersion
  }

  lemma {:induction false} NothingHeld<K(!new)>(m: map<K, Reservation>, f: (K, Reservation) -> nat)
    requires forall k :: k in m ==> f(k, m[k]) == 0
    ensures Total(m, f) == 0
    decreases |m|
  {
    if m != map[] {
      var k :| k in m && Total(m, f) == f(k, m[k]) + Total(m - {k}, f);
      RemoveShrinks(m, k);
      NothingHeld(m - {k}, f);
    }
  }

  /** Inserting a flight, or changing the status of one, moves no seats. */
  lemma OperatorKeepsBalanced(db: Db, f: FlightId, row: Flight)
    requires Balanced(db)
    requires if f in db.flights then exists s :: row == db.flights[f].(status := s) else NewFlight(row)
    ensures Balanced(db.(flights := db.flights[f := row]))
  {
    var db' := db.(flights := db.flights[f := row]);
    if f !in db.flights {
      NothingHeld(db.reservations, ActiveSeats(f));
      NothingHeld(db.reservations, VersionMoves(f));
    }
    assert forall g :: SeatsHeld(db', g) == SeatsHeld(db, g);
  }

  // ---------------------------------------------------------------- the life of a reservation

  function Rank(db: Db, b: BookingId): nat {
    if b !in db.reservations then 0 else if db.reservations[b].status == Active then 1 else 2
  }

  /** `later` comes after `db`: reservations only advance, and otherwise stay as they were made. */
  ghost predicate Advanced(db: Db, later: Db) {
    && (forall f :: f in db.flights ==> f in later.flights && db.flights[f].version <= later.flights[f].version)
    && (forall b :: Rank(db, b) <= Rank(later, b))
    && (forall b :: b in db.reservations ==>
          && b in later.reservations
          && later.reservations[b].flight == db.reservations[b].flight
          && later.reservations[b].seats == db.reservations[b].seats)
  }

  /** A call succeeds exactly when it moves its own booking one step, and touches no other booking. */
  lemma ApplyAdvances(db: Db, request: Request)
    ensures var (db', result) := Apply(db, request);
            && Advanced(db, db')
            && (forall b :: b != request.booking ==> Rank(db', b) == Rank(db, b))
            && (result.Ok? ==> Rank(db', request.booking) == Rank(db, request.booking) + 1)
            && (result.Ok? ==> Rank(db, request.booking) == if request.ReserveSeats? then 0 else 1)
            && (result.Err? ==> db' == db)
  {
  }

  // ---------------------------------------------------------------- answers

  /** The reservations of flight `f` leave room for that many more seats. */
  ghost predicate Fits(db: Db, f: FlightId, seats: nat) {
    f in db.flights && SeatsHeld(db, f) + seats <= db.flights[f].total
  }

  predicate OnOffer(db: Db, f: FlightId) {
    f in db.flights && db.flights[f].status == Scheduled
  }

  /** The answer to a reservation depends on the seats actually held, not on the seat column by itself. */
  lemma ReserveAnswers(db: Db, f: FlightId, b: BookingId, seats: nat)
    requires Balanced(db)
    ensures var (db', result) := Reserve(db, f, b, seats);
            && (result.Ok? <==> OnOffer(db, f) && Fits(db, f, seats) && Rank(db, b) == 0)
            && (result == Err(NotFound) <==> !OnOffer(db, f))
            && (result == Err(NoSeats) <==> OnOffer(db, f) && !Fits(db, f, seats))
            && (result == Err(AlreadyExists) <==> OnOffer(db, f) && Fits(db, f, seats) && Rank(db, b) > 0)
            && (forall g :: g in db.flights ==>
                  SeatsHeld(db', g) == SeatsHeld(db, g) + (if result.Ok? && g == f then seats else 0))
  {
    forall g | g in db.flights
      ensures SeatsHeld(Reserve(db, f, b, seats).0, g)
           == SeatsHeld(db, g) + (if Reserve(db, f, b, seats).1.Ok? && g == f then seats else 0)
    {
      TotalUpdate(db.reservations, ActiveSeats(g), b, Reservation(f, seats, Active));
    }
  }

  /** A release takes back exactly the seats of an active reservation, and finds nothing else. */
  lemma ReleaseAnswers(db: Db, b: BookingId)
    requires Balanced(db)
    ensures var (db', result) := Release(db, b);
            && (result.Ok? <==> Rank(db, b) == 1) && (result.Err? <==> result == Err(NotFound))
            && (result.Ok? ==>
                  var r := db.reservations[b];
                  && SeatsHeld(db, r.flight) == SeatsHeld(db', r.flight) + r.seats
                  && (forall g :: g != r.flight ==> SeatsHeld(db', g) == SeatsHeld(db, g)))
  {
    if Rank(db, b) == 1 {
      var r := db.reservations[b];
      forall g
        ensures SeatsHeld(db, g) == SeatsHeld(Release(db, b).0, g) + (if g == r.flight then r.seats else 0)
      {
        TotalUpdate(db.reservations, ActiveSeats(g), b, r.(status := Released));
      }
    }
  }

  /** Releasing a fresh reservation gives the flight its seats back; only the version tells. */
  lemma ReleaseUndoesReserve(db: Db, f: FlightId, b: BookingId, seats: nat)
    requires Reserve(db, f, b, seats).1.Ok?
    ensures var reserved := Reserve(db, f, b, seats).0;
            var (after, result) := Release(reserved, b);
            && result.Ok?
            && after.flights == db.flights[f := db.flights[f].(version := db.flights[f].version + 2)]
            && after.reservations == db.reservations[b := Reservation(f, seats, Released)]
            && Release(after, b) == (after, Err(NotFound))
            && (forall other: nat :: Reserve(after, f, b, other).1.Err?)
  {
    var (after, _) := Release(Reserve(db, f, b, seats).0, b);
    assert after.flights[f] == db.flights[f].(version := db.flights[f].version + 2);
  }

  // ---------------------------------------------------------------- the life of a flight

  /** `later` comes after `db`: a flight's version never goes back, and only it moves the seats. */
  ghost predicate Follows(db: Db, later: Db) {
    forall f :: f in db.flights ==>
      && f in later.flights
      && later.flights[f].info == db.flights[f].info
      && later.flights[f].total == db.flights[f].total
      && db.flights[f].version <= later.flights[f].version
      && (db.flights[f].version == later.flights[f].version ==> db.flights[f].available == later.flights[f].available)
  }

  lemma ApplyFollows(db: Db, request: Request)
    ensures Follows(db, Apply(db, request).0)
    ensures var (db', result) := Apply(db, request);
            result.Ok? && result.reservation.flight in db.flights ==>
              db'.flights[result.reservation.flight].version == db.flights[result.reservation.flight].version + 1
  {
  }

  // ---------------------------------------------------------------- queries

  datatype Found = Found(id: FlightId, row: Flight)

  datatype DateFilter = AnyDay | OnDay(day: nat)

  predicate Matches(row: Flight, origin: nat, destination: nat, date: DateFilter) {
    && row.info.origin == origin && row.info.destination == destination && row.status == Scheduled
    && (date.OnDay? ==> row.info.flightDate == date.day)
  }

  /** The ids of exactly the matching flights, each once, by departure time. */
  ghost predicate IsCursor(db: Db, origin: nat, destination: nat, date: DateFilter, ids: seq<FlightId>) {
    && (forall f :: f in ids <==> f in db.flights && Matches(db.flights[f], origin, destination, date))
    && (forall i, j :: 0 <= i < j < |ids| ==> ids[i] != ids[j])
    && (forall i, j :: 0 <= i < j < |ids| ==> db.flights[ids[i]].info.departure <= db.flights[ids[j]].info.departure)
  }

  /** The day of departure is the calendar day, 24 hours long, that the departure falls in. */
  lemma DepartureDayIsDay(info: FlightInfo, day: nat)
    ensures info.DepartureDay() == day <==> day * (24 * 60 * 60) <= info.departure < (day + 1) * (24 * 60 * 60)
  {
  }

  /**
   A search lists exactly the scheduled flights of its route, and of its date if it has one, each once with
   its row, by departure.
   */
  lemma SearchFinds(db: Db, origin: nat, destination: nat, date: DateFilter, ids: seq<FlightId>, f: FlightId)
    requires IsCursor(db, origin, destination, date, ids)
    ensures (exists i :: 0 <= i < |ids| && RowsAt(db, ids)[i].id == f) <==>
            && f in db.flights && db.flights[f].status == Scheduled
            && db.flights[f].info.origin == origin && db.flights[f].info.destination == destination
            && (date == AnyDay || date == OnDay(db.flights[f].info.flightDate))
    ensures forall i :: 0 <= i < |ids| ==>
      RowsAt(db, ids)[i].id in db.flights && RowsAt(db, ids)[i].row == db.flights[RowsAt(db, ids)[i].id]
    ensures forall i, j :: 0 <= i < j < |ids| ==>
      && RowsAt(db, ids)[i].id != RowsAt(db, ids)[j].id
      && RowsAt(db, ids)[i].row.info.departure <= RowsAt(db, ids)[j].row.info.departure
  {
    if f in ids {
      var i :| 0 <= i < |ids| && ids[i] == f;
      assert RowsAt(db, ids)[i].id == f;
    }
  }

  function RowsAt(db: Db, ids: seq<FlightId>): (rows: seq<Found>)
    requires forall f :: f in ids ==> f in db.flights
    ensures |rows| == |ids|
  {
    seq(|ids|, i requires 0 <= i < |ids| => Found(ids[i], db.flights[ids[i]]))
  }
}
