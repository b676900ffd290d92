/**
 A retried call of the flight service that no other call interrupts: which attempt is the last, what it
 returns, and what the attempts leave behind, all from what the network does to each of them.
 */
module RetriedCalls {
  import opened Grpc
  import opened FlightDb
  import opened FlightApi

  /** One attempt at a remote call: answered, or ending in an error with the request processed or not. */
  datatype Fate = Answered | Unanswered(code: Code, processed: bool)

  /** The codes of the flight service's own answers do not come from the network. */
  predicate Fates(fates: seq<Fate>) {
    && |fates| == MAX_ATTEMPTS
    && forall k :: 0 <= k < |fates| && fates[k].Unanswered? ==>
        fates[k].code != OK && fates[k].code != Code.AlreadyExists
  }

  predicate Arrives(fate: Fate) {
    fate.Answered? || fate.processed
  }

  /** One of the first `n` attempts reaches the flight service. */
  predicate ArrivesBefore(fates: seq<Fate>, n: nat)
    requires n <= |fates|
  {
    exists k :: 0 <= k < n && Arrives(fates[k])
  }

  /** There is an attempt after attempt `k`. */
  predicate GoesOn(fates: seq<Fate>, k: nat)
    requires k < |fates|
  {
    fates[k].Unanswered? && Retries(k, fates[k].code)
  }

  /** The last attempt that is made, counted from 0: the first after which the call does not go on. */
  function LastAttempt(fates: seq<Fate>): (last: nat)
    requires |fates| == MAX_ATTEMPTS
    ensures last < MAX_ATTEMPTS && !GoesOn(fates, last)
    ensures forall k :: 0 <= k < last ==> GoesOn(fates, k)
  {
    if !GoesOn(fates, 0) then 0 else if !GoesOn(fates, 1) then 1 else 2
  }

  /** The call reaches the flight service at all. */
  predicate Reaches(fates: seq<Fate>)
    requires |fates| == MAX_ATTEMPTS
  {
    ArrivesBefore(fates, LastAttempt(fates) + 1)
  }

  lemma AnsweredReaches(fates: seq<Fate>)
    requires |fates| == MAX_ATTEMPTS && fates[LastAttempt(fates)].Answered?
    ensures Reaches(fates)
  {
    assert Arrives(fates[LastAttempt(fates)]);
  }

  /** The database after the first `n` attempts: however many arrive, they act as one. */
  function DbBefore(db: Db, request: Request, fates: seq<Fate>, n: nat): Db
    requires n <= |fates|
  {
    if ArrivesBefore(fates, n) then Apply(db, request).0 else db
  }

  function DbAfter(db: Db, request: Request, fates: seq<Fate>): Db
    requires |fates| == MAX_ATTEMPTS
  {
    DbBefore(db, request, fates, LastAttempt(fates) + 1)
  }

  /** What the caller sees: the end of the last attempt. */
  function CodeAfter(db: Db, request: Request, fates: seq<Fate>): Code
    requires |fates| == MAX_ATTEMPTS
  {
    var last := LastAttempt(fates);
    match fates[last]
    case Unanswered(code, _) => code
    case Answered => CodeOf(Apply(DbBefore(db, request, fates, last), request).1)
  }

  /** Processing a request once more changes nothing. */
  lemma ApplyTwice(db: Db, request: Request)
    ensures Apply(Apply(db, request).0, request).0 == Apply(db, request).0
  {
  }

  /** One more attempt, as far as the database goes. */
  lemma OneMoreAttempt(db: Db, request: Request, fates: seq<Fate>, n: nat)
    requires n < |fates|
    ensures DbBefore(db, request, fates, n + 1)
         == if Arrives(fates[n]) then Apply(DbBefore(db, request, fates, n), request).0
             else DbBefore(db, request, fates, n)
  {
    ApplyTwice(db, request);
    assert Arrives(fates[n]) ==> ArrivesBefore(fates, n + 1);
    assert ArrivesBefore(fates, n) ==> ArrivesBefore(fates, n + 1);
  }

  /**
   A retried reservation for a new booking takes its seats exactly if they are on offer and some attempt
   arrives.  But it is told so only by its last attempt, and if an earlier one had arrived, only
   if as many seats are free once more: otherwise the repeated request is refused for want of seats.
   */
  lemma RetriedReserve(db: Db, f: FlightId, b: BookingId, seats: nat, fates: seq<Fate>)
    requires Balanced(db) && Fates(fates) && b !in db.reservations
    ensures var request := ReserveSeats(f, b, seats);
            var last := LastAttempt(fates);
            var code := CodeAfter(db, request, fates);
            && (b in DbAfter(db, request, fates).reservations <==>
                Reaches(fates) && OnOffer(db, f) && Fits(db, f, seats))
            && (code == OK || code == Code.AlreadyExists <==>
                && fates[last].Answered? && OnOffer(db, f) && Fits(db, f, seats)
                && (ArrivesBefore(fates, last) ==> Fits(db, f, 2 * seats)))
            && (b in DbAfter(db, request, fates).reservations ==>
                DbAfter(db, request, fates).reservations[b] == Reservation(f, seats, Active))
  {
    hide SeatsHeld, Balanced;
    ReserveAnswers(db, f, b, seats);
    ReserveAgain(db, f, b, seats);
  }

  /** The first answer is lost and too few seats remain: the caller is refused, and the seats stay taken. */
  lemma RetryCanLoseSeats(f: FlightId, row: Flight, b: BookingId, seats: nat)
    requires NewFlight(row) && row.status == Scheduled && seats <= row.total < 2 * seats
    ensures var db := Db(map[f := row], map[]);
            var fates := [Unanswered(DeadlineExceeded, true), Answered, Answered];
            var request := ReserveSeats(f, b, seats);
            && Fates(fates)
            && CodeAfter(db, request, fates) == ResourceExhausted
            && DbAfter(db, request, fates).reservations == map[b := Reservation(f, seats, Active)]
  {
    var fates := [Unanswered(DeadlineExceeded, true), Answered, Answered];
    assert GoesOn(fates, 0) && !GoesOn(fates, 1);
    assert Arrives(fates[0]);
  }

  /** What a second processing of a reservation answers. */
  lemma ReserveAgain(db: Db, f: FlightId, b: BookingId, seats: nat)
    requires Balanced(db) && b !in db.reservations
    ensures var again := Reserve(Reserve(db, f, b, seats).0, f, b, seats).1;
            again.Err? && (again == Err(StoreError.AlreadyExists) <==>
                OnOffer(db, f) && Fits(db, f, seats) && Fits(db, f, 2 * seats))
  {
    ReserveAnswers(db, f, b, seats);
  }

  /**
   A retried release leaves its reservation released exactly if it was so before or some attempt arrives.
   It is told OK exactly if the reservation was active, the last attempt is answered, and no earlier one
   had arrived.
   */
  lemma RetriedRelease(db: Db, b: BookingId, fates: seq<Fate>)
    requires Fates(fates) && b in db.reservations
    ensures var request := ReleaseReservation(b);
            var last := LastAttempt(fates);
            var active := db.reservations[b].status == Active;
            && b in DbAfter(db, request, fates).reservations
            && (DbAfter(db, request, fates).reservations[b].status == Active <==> active && !Reaches(fates))
            && (CodeAfter(db, request, fates) == OK <==>
                active && fates[last].Answered? && !ArrivesBefore(fates, last))
  {
  }

  /** The code of a reservation whose first attempt is answered, told by the situation of the call. */
  lemma AnsweredReserve(db: Db, f: FlightId, b: BookingId, seats: nat, fates: seq<Fate>)
    requires Balanced(db) && Fates(fates) && fates[0].Answered? && b !in db.reservations
    ensures var code := CodeAfter(db, ReserveSeats(f, b, seats), fates);
            && (code == Code.NotFound <==> !OnOffer(db, f))
            && (code == ResourceExhausted <==> OnOffer(db, f) && !Fits(db, f, seats))
            && (code == OK <==> OnOffer(db, f) && Fits(db, f, seats))
  {
    hide Balanced, Fits;
    ReserveCodes(db, f, b, seats);
    assert LastAttempt(fates) == 0;
  }

  /** A release whose first attempt is answered finds its reservation active, or does not find it. */
  lemma AnsweredRelease(db: Db, b: BookingId, fates: seq<Fate>)
    requires Fates(fates) && fates[0].Answered?
    ensures var code := CodeAfter(db, ReleaseReservation(b), fates);
            && (code == OK <==> b in db.reservations && db.reservations[b].status == Active)
            && (code == Code.NotFound <==> b !in db.reservations || db.reservations[b].status == Released)
  {
    assert LastAttempt(fates) == 0;
  }
}
