/**
 The booking service's handlers, as they run when nothing else interferes.

 What the network and the booking database do to a handler is given by its `Fate` arguments.  Ghost
 fields record the handler's actions; `Valid` says that they form a run of module BookingSaga, so
 every law of module BookingLaws holds of the tables that the handlers leave behind.
 */
module BookingHandler {
  import opened Grpc
  import opened FlightDb
  import opened FlightApi
  import opened FlightStore
  import opened BookingSaga
  import opened RetriedCalls
  import BookingLaws

  /** One statement on the bookings table: done and seen, done but reported as failed, or not done. */
  datatype TableFate = Seen | StoredUnseen | Failed

  /** A create gets as far as its reservation. */
  predicate Asks(seats: int, lookUp: Code, allowed: bool) {
    seats > 0 && lookUp == OK && allowed
  }

  /** A create is told that its reservation went through: see `RetriedCalls.RetriedReserve`. */
  ghost predicate Granted(db: Db, f: FlightId, seats: int, reserve: seq<Fate>)
    requires Fates(reserve) && seats >= 0
  {
    var last := LastAttempt(reserve);
    && reserve[last].Answered? && OnOffer(db, f) && Fits(db, f, seats)
    && (ArrivesBefore(reserve, last) ==> Fits(db, f, 2 * seats))
  }

  /** The flight database after the reservation of a new booking and, if need be, its compensation. */
  ghost function CreatedDb(db: Db, f: FlightId, b: BookingId, seats: nat, reserve: seq<Fate>, undoes: bool,
                           compensate: seq<Fate>): Db
    requires Fates(reserve) && Fates(compensate)
  {
    var request := Request.ReserveSeats(f, b, seats);
    var reserved := DbAfter(db, request, reserve);
    if Accepted(CodeAfter(db, request, reserve)) && undoes
    then DbAfter(reserved, Request.ReleaseReservation(b), compensate) else reserved
  }

  /** Seats stay taken exactly if the reservation arrived in time, and no compensation did. */
  lemma CreateOutcome(db: Db, f: FlightId, b: BookingId, seats: nat, reserve: seq<Fate>, undoes: bool,
                      compensate: seq<Fate>)
    requires Balanced(db) && b !in db.reservations && Fates(reserve) && Fates(compensate)
    ensures Accepted(CodeAfter(db, Request.ReserveSeats(f, b, seats), reserve)) <==> Granted(db, f, seats, reserve)
    ensures var end := CreatedDb(db, f, b, seats, reserve, undoes, compensate);
            IsActive(end, b) <==>
            && Reaches(reserve) && OnOffer(db, f) && Fits(db, f, seats)
            && !(Granted(db, f, seats, reserve) && undoes && Reaches(compensate))
  {
    hide Balanced, SeatsHeld, Apply;
    RetriedReserve(db, f, b, seats, reserve);
    var reserved := DbAfter(db, Request.ReserveSeats(f, b, seats), reserve);
    if reserve[LastAttempt(reserve)].Answered? {
      AnsweredReaches(reserve);
    }
    if b in reserved.reservations {
      RetriedRelease(reserved, b, compensate);
    }
  }

  /** The last attempt ends in a transport failure. */
  predicate UnreachedAtLast(fates: seq<Fate>)
    requires Fates(fates)
  {
    fates[LastAttempt(fates)].Unanswered? && TransportFailure(fates[LastAttempt(fates)].code)
  }

  /** The status of a refused reservation: 404 for a flight not on offer, 409 for want of seats, 503 unreached. */
  lemma CreateRefused(db: Db, f: FlightId, b: BookingId, seats: nat, reserve: seq<Fate>)
    requires Balanced(db) && b !in db.reservations && Fates(reserve)
    ensures var code := CodeAfter(db, Request.ReserveSeats(f, b, seats), reserve);
            && (reserve[0].Answered? ==>
                  && (!Accepted(code) && HttpStatus(code) == 404 <==> !OnOffer(db, f))
                  && (!Accepted(code) && HttpStatus(code) == 409 <==> OnOffer(db, f) && !Fits(db, f, seats)))
            && (UnreachedAtLast(reserve) ==> !Accepted(code) && HttpStatus(code) == 503)
  {
    hide Balanced, Fits, Apply;
    if reserve[0].Answered? {
      AnsweredReserve(db, f, b, seats, reserve);
    }
  }

  /** The status of a refused release: 404 for a reservation that is not active, 503 unreached. */
  lemma CancelRefused(db: Db, b: BookingId, release: seq<Fate>)
    requires Fates(release) && b in db.reservations
    ensures var code := CodeAfter(db, Request.ReleaseReservation(b), release);
            && (release[0].Answered? ==> (code != OK && HttpStatus(code) == 404 <==> !IsActive(db, b)))
            && (UnreachedAtLast(release) ==> code != OK && HttpStatus(code) == 503)
  {
    if release[0].Answered? {
      AnsweredRelease(db, b, release);
    }
  }

  /** A cancel gets as far as its release. */
  predicate CancelAsks(bookings: map<BookingId, Booking>, b: BookingId, readable: bool, allowed: bool) {
    readable && b in bookings && bookings[b].status == Confirmed && allowed
  }

  /** A booking id that no create run has used has no reservation. */
  lemma NewBookingIsFree(worlds: seq<World>, actions: seq<Action>, b: BookingId)
    requires BookingLaws.IsRun(worlds, actions) && b !in worlds[|actions|].creates
    ensures Balanced(worlds[|actions|].db) && b !in worlds[|actions|].db.reservations
  {
    BookingLaws.RunIsSound(worlds, actions, |actions|);
    assert b in worlds[|actions|].db.reservations ==> ReservationSound(worlds[|actions|], b);
  }

  lemma BookingIsBacked(worlds: seq<World>, actions: seq<Action>, b: BookingId)
    requires BookingLaws.IsRun(worlds, actions) && b in worlds[|actions|].bookings
    ensures b in worlds[|actions|].db.reservations
  {
    BookingLaws.BookingsAreBacked(worlds, actions, |actions|, b);
  }

  class Handler {
    const flights: Store
    var bookings: map<BookingId, Booking>
    ghost var net: World
    ghost var worlds: seq<World>
    ghost var actions: seq<Action>

    ghost predicate Recorded()
      reads this
    {
      BookingLaws.IsRun(worlds, actions) && worlds[|actions|] == net
    }

    ghost predicate Valid()
      reads this, flights
    {
      Recorded() && net.db == flights.Contents() && net.bookings == bookings
    }

    constructor (flights: Store)
      requires Balanced(flights.Contents()) && flights.reservations == map[]
      ensures Valid() && this.flights == flights && bookings == map[] && net.creates == map[] && net.cancels == map[]
    {
      this.flights := flights;
      bookings := map[];
      net := World(flights.Contents(), map[], {}, {}, map[], map[]);
      worlds := [World(flights.Contents(), map[], {}, {}, map[], map[])];
      actions := [];
    }

    ghost method Take(a: Action)
      requires Recorded() && CanAct(net, a)
      modifies this`net, this`worlds, this`actions
      ensures Recorded() && net == Act(old(net), a) && actions == old(actions) + [a]
    {
      hide Act, CanAct, Balanced;
      net, worlds, actions := Act(net, a), worlds + [Act(net, a)], actions + [a];
    }

    ghost method TakeDelivery(m: Message)
      requires Recorded() && m in net.sent
      modifies this`net, this`worlds, this`actions
      ensures Recorded() && actions == old(actions) + [Deliver(m)]
      ensures net == old(net).(db := Apply(old(net).db, m.request).0,
                               replies := old(net).replies + {Reply(m, CodeOf(Apply(old(net).db, m.request).1))})
    {
      Take(Deliver(m));
    }

    /** The request reaches the flight service as its fate has it; `code` is what the handler sees. */
    method Send(ghost m: Message, request: Request, fate: Fate) returns (code: Code)
      requires Valid() && m in net.sent && m.request == request
      modifies this`net, this`worlds, this`actions, flights
      ensures Valid() && old(actions) <= actions
      ensures net == old(net).(db := net.db, replies := net.replies)
      ensures flights.Contents() == if Arrives(fate) then Apply(old(flights.Contents()), request).0
          else old(flights.Contents())
      ensures code == if fate.Answered? then CodeOf(Apply(old(flights.Contents()), request).1) else fate.code
      ensures fate.Answered? ==> Reply(m, code) in net.replies
    {
      if fate.Answered? || fate.processed {
        var result;
        match request {
          case ReserveSeats(f, b, seats) => result := flights.ReserveSeats(f, b, seats);
          case ReleaseReservation(b) => result := flights.ReleaseReservation(b);
        }
        TakeDelivery(m);
        code := CodeOf(result);
      }
      if fate.Unanswered? {
        code := fate.code;
      }
    }

    ghost method TakeReserveEnds(b: BookingId, code: Code)
      requires Recorded() && CanAct(net, ReserveEnds(b, code))
      modifies this`net, this`worlds, this`actions
      ensures Recorded() && old(actions) <= actions && b in net.creates
      ensures var c := old(net).creates[b];
              var k := c.stage.attempt;
              && net == old(net).(creates := net.creates, sent := net.sent)
              && net.creates[b] == c.(stage := if Accepted(code) then Inserting
                                               else if Retries(k, code) then Reserving(k + 1)
                                               else CreateReturned(HttpStatus(code)))
              && (net.creates[b].stage.Reserving? ==> ReserveMessage(b, net.creates[b], k + 1) in net.sent)
    {
      Take(ReserveEnds(b, code));
    }

    /** The retried reservation. */
    method Reserve(b: BookingId, f: FlightId, seats: nat, fates: seq<Fate>) returns (code: Code, attempts: nat)
      requires Valid() && Fates(fates)
      requires b in net.creates && net.creates[b] == Create(f, seats, Reserving(0), Known)
      requires ReserveMessage(b, net.creates[b], 0) in net.sent
      modifies this`net, this`worlds, this`actions, flights
      ensures Valid() && old(actions) <= actions
      ensures attempts == LastAttempt(fates) + 1
      ensures code == CodeAfter(old(flights.Contents()), Request.ReserveSeats(f, b, seats), fates)
      ensures flights.Contents() == DbAfter(old(flights.Contents()), Request.ReserveSeats(f, b, seats), fates)
      ensures b in net.creates && net.creates[b] ==
                Create(f, seats, if Accepted(code) then Inserting else CreateReturned(HttpStatus(code)), Known)
    {
      hide BookingLaws.IsRun, Apply;
      code, attempts := Unavailable, 0;
      for attempt := 0 to MAX_ATTEMPTS
        invariant Valid() && old(actions) <= actions
        invariant attempt <= LastAttempt(fates)
        invariant flights.Contents() ==
                    DbBefore(old(flights.Contents()), Request.ReserveSeats(f, b, seats), fates, attempt)
        invariant b in net.creates && net.creates[b] == Create(f, seats, Reserving(attempt), Known)
        invariant ReserveMessage(b, net.creates[b], attempt) in net.sent
      {
        ghost var m := ReserveMessage(b, net.creates[b], attempt);
        OneMoreAttempt(old(flights.Contents()), Request.ReserveSeats(f, b, seats), fates, attempt);
        code := Send(m, Request.ReserveSeats(f, b, seats), fates[attempt]);
        TakeReserveEnds(b, code);
        attempts := attempt + 1;
        if !Retries(attempt, code) {
          return;
        }
      }
    }

    ghost method TakeCompensationEnds(b: BookingId, code: Code)
      requires Recorded() && CanAct(net, CompensationEnds(b, code))
      modifies this`net, this`worlds, this`actions
      ensures Recorded() && old(actions) <= actions && b in net.creates
      ensures var k := old(net).creates[b].stage.attempt;
              && net == old(net).(creates := net.creates, sent := net.sent)
              && net.creates[b].stage == (if Retries(k, code) then Compensating(k + 1) else CreateReturned(500))
              && (net.creates[b].stage.Compensating? ==> CompensationMessage(b, k + 1) in net.sent)
    {
      Take(CompensationEnds(b, code));
    }

    /** The retried compensation, whose answer nobody looks at. */
    method Compensate(b: BookingId, fates: seq<Fate>)
      requires Valid() && Fates(fates)
      requires b in net.creates && net.creates[b].stage == Compensating(0)
      requires CompensationMessage(b, 0) in net.sent
      modifies this`net, this`worlds, this`actions, flights
      ensures Valid() && old(actions) <= actions
      ensures flights.Contents() == DbAfter(old(flights.Contents()), Request.ReleaseReservation(b), fates)
      ensures b in net.creates && net.creates[b].stage == CreateReturned(500)
    {
      hide BookingLaws.IsRun, Apply, HttpStatus, CodeOf, Balanced;
      for attempt := 0 to MAX_ATTEMPTS
        invariant Valid() && old(actions) <= actions
        invariant attempt <= LastAttempt(fates)
        invariant flights.Contents() == DbBefore(old(flights.Contents()), Request.ReleaseReservation(b), fates, attempt)
        invariant b in net.creates && net.creates[b].stage == Compensating(attempt)
        invariant CompensationMessage(b, attempt) in net.sent
      {
        OneMoreAttempt(old(flights.Contents()), Request.ReleaseReservation(b), fates, attempt);
        var code := Send(CompensationMessage(b, attempt), Request.ReleaseReservation(b), fates[attempt]);
        TakeCompensationEnds(b, code);
        if !Retries(attempt, code) {
          return;
        }
      }
    }

    ghost method TakeStartCreate(b: BookingId, f: FlightId, seats: nat, allowed: bool)
      requires Recorded() && CanAct(net, StartCreate(b, f, seats, allowed))
      modifies this`net, this`worlds, this`actions
      ensures Recorded() && old(actions) <= actions && b in net.creates
      ensures net == old(net).(creates := net.creates, sent := net.sent)
      ensures net.creates[b] == Create(f, seats, if allowed then Reserving(0) else CreateReturned(503), Known)
      ensures allowed ==> ReserveMessage(b, net.creates[b], 0) in net.sent
    {
      Take(StartCreate(b, f, seats, allowed));
    }

    /** The statement that inserts the booking row. */
    method InsertRow(b: BookingId, f: FlightId, seats: nat, insert: TableFate, mayCompensate: bool)
      requires Valid() && b in net.creates && net.creates[b] == Create(f, seats, Inserting, Known)
      modifies this
      ensures Valid() && old(actions) <= actions
      ensures bookings == if insert == Failed then old(bookings) else old(bookings)[b := Booking(f, seats, Confirmed)]
      ensures b in net.creates
      ensures net.creates[b].stage ==
                (if insert == Seen then CreateReturned(201) else if mayCompensate then Compensating(0)
                    else CreateReturned(500))
      ensures net.creates[b].stage.Compensating? ==> CompensationMessage(b, 0) in net.sent
    {
      assert CreateSound(net, b) by {
        BookingLaws.RunIsSound(worlds, actions, |actions|);
      }
      Take(Insert(b, insert != Failed, insert == Seen, mayCompensate));
      if insert != Failed {
        bookings := bookings[b := Booking(f, seats, Confirmed)];
      }
    }

    /**
     `lookUp` is how the call that looks for the flight ends; `allowed` and `mayCompensate` are the answers
     of the circuit breaker to the two other calls.
     */
    method CreateBooking(b: BookingId, f: FlightId, seats: int, lookUp: Code, allowed: bool, reserve: seq<Fate>,
                         insert: TableFate, mayCompensate: bool, compensate: seq<Fate>)
      returns (status: nat)
      requires Valid() && b !in net.creates && Fates(reserve) && Fates(compensate)
      modifies this, flights
      ensures Valid() && old(actions) <= actions
      ensures seats > 0 && lookUp == OK ==> b in net.creates && net.creates[b].stage == CreateReturned(status)
      ensures seats <= 0 ==> status == 400
      ensures seats > 0 && lookUp != OK ==> status == HttpStatus(lookUp)
      ensures seats > 0 && lookUp == OK && !allowed ==> status == 503
      ensures !Asks(seats, lookUp, allowed) ==>
          flights.Contents() == old(flights.Contents()) && bookings == old(bookings)
      ensures Asks(seats, lookUp, allowed) ==>
        var code := CodeAfter(old(flights.Contents()), Request.ReserveSeats(f, b, seats), reserve);
        && status == (if !Accepted(code) then HttpStatus(code) else if insert == Seen then 201 else 500)
        && bookings == (if Accepted(code) && insert != Failed then old(bookings)[b := Booking(f, seats, Confirmed)]
                        else old(bookings))
        && flights.Contents() ==
             CreatedDb(old(flights.Contents()), f, b, seats, reserve, insert != Seen && mayCompensate, compensate)
      ensures Asks(seats, lookUp, allowed) && reserve[0].Answered? ==>
        && (status == 404 <==> !OnOffer(old(flights.Contents()), f))
        && (status == 409 <==> OnOffer(old(flights.Contents()), f) && !Fits(old(flights.Contents()), f, seats))
      ensures Asks(seats, lookUp, allowed) && UnreachedAtLast(reserve) ==> status == 503
      ensures status == 201 <==>
        Asks(seats, lookUp, allowed) && insert == Seen && Granted(old(flights.Contents()), f, seats, reserve)
      ensures IsActive(flights.Contents(), b) <==>
        && Asks(seats, lookUp, allowed) && Reaches(reserve)
        && OnOffer(old(flights.Contents()), f) && Fits(old(flights.Contents()), f, seats)
        && !(Granted(old(flights.Contents()), f, seats, reserve) && insert != Seen && mayCompensate
            && Reaches(compensate))
    {
      hide BookingLaws.IsRun, Apply, Balanced, SeatsHeld;
      ghost var db := old(flights.Contents());
      NewBookingIsFree(worlds, actions, b);
      if seats <= 0 {
        return 400;
      }
      if lookUp != OK {
        return HttpStatus(lookUp);
      }
      TakeStartCreate(b, f, seats, allowed);
      if !allowed {
        return 503;
      }
      CreateRefused(db, f, b, seats, reserve);
      CreateOutcome(db, f, b, seats, reserve, insert != Seen && mayCompensate, compensate);
      var code, _ := Reserve(b, f, seats, reserve);
      if !Accepted(code) {
        return HttpStatus(code);
      }
      InsertRow(b, f, seats, insert, mayCompensate);
      if insert != Seen {
        if mayCompensate {
          Compensate(b, compensate);
        }
        return 500;
      }
      status := 201;
    }

    ghost method TakeReleaseEnds(r: RunId, code: Code)
      requires Recorded() && CanAct(net, ReleaseEnds(r, code))
      modifies this`net, this`worlds, this`actions
      ensures Recorded() && old(actions) <= actions && r in net.cancels
      ensures var c := old(net).cancels[r];
              var k := c.stage.attempt;
              && net == old(net).(cancels := net.cancels, sent := net.sent)
              && net.cancels[r] == c.(stage := if code == OK then Marking
                                               else if Retries(k, code) then Releasing(k + 1)
                                               else CancelReturned(HttpStatus(code)))
              && (net.cancels[r].stage.Releasing? ==> CancelMessage(r, net.cancels[r], k + 1) in net.sent)
    {
      Take(ReleaseEnds(r, code));
    }

    /** The retried release of a cancel run. */
    method Release(r: RunId, b: BookingId, fates: seq<Fate>) returns (code: Code, attempts: nat)
      requires Valid() && Fates(fates)
      requires r in net.cancels && net.cancels[r] == Cancel(b, Releasing(0))
      requires CancelMessage(r, net.cancels[r], 0) in net.sent
      modifies this`net, this`worlds, this`actions, flights
      ensures Valid() && old(actions) <= actions
      ensures attempts == LastAttempt(fates) + 1
      ensures code == CodeAfter(old(flights.Contents()), Request.ReleaseReservation(b), fates)
      ensures flights.Contents() == DbAfter(old(flights.Contents()), Request.ReleaseReservation(b), fates)
      ensures r in net.cancels
      ensures net.cancels[r] == Cancel(b, if code == OK then Marking else CancelReturned(HttpStatus(code)))
    {
      hide BookingLaws.IsRun, Apply;
      code, attempts := Unavailable, 0;
      for attempt := 0 to MAX_ATTEMPTS
        invariant Valid() && old(actions) <= actions
        invariant attempt <= LastAttempt(fates)
        invariant flights.Contents() == DbBefore(old(flights.Contents()), Request.ReleaseReservation(b), fates, attempt)
        invariant r in net.cancels && net.cancels[r] == Cancel(b, Releasing(attempt))
        invariant CancelMessage(r, net.cancels[r], attempt) in net.sent
      {
        ghost var m := CancelMessage(r, net.cancels[r], attempt);
        OneMoreAttempt(old(flights.Contents()), Request.ReleaseReservation(b), fates, attempt);
        code := Send(m, Request.ReleaseReservation(b), fates[attempt]);
        TakeReleaseEnds(r, code);
        attempts := attempt + 1;
        if !Retries(attempt, code) {
          return;
        }
      }
    }

    ghost method TakeStartCancel(r: RunId, b: BookingId, allowed: bool)
      requires Recorded() && CanAct(net, StartCancel(r, b, allowed))
      modifies this`net, this`worlds, this`actions
      ensures Recorded() && old(actions) <= actions && r in net.cancels
      ensures net == old(net).(cancels := net.cancels, sent := net.sent)
      ensures net.cancels[r] == Cancel(b, if b !in net.bookings then CancelReturned(404)
                                          else if net.bookings[b].status != Confirmed then CancelReturned(400)
                                          else if allowed then Releasing(0) else CancelReturned(503))
      ensures net.cancels[r].stage.Releasing? ==> CancelMessage(r, net.cancels[r], 0) in net.sent
    {
      Take(StartCancel(r, b, allowed));
    }

    /** The statement that marks the booking row. */
    method MarkRow(r: RunId, b: BookingId, mark: TableFate)
      requires Valid() && r in net.cancels && net.cancels[r] == Cancel(b, Marking)
      modifies this
      ensures Valid() && old(actions) <= actions
      ensures r in net.cancels && net.cancels[r] == Cancel(b, CancelReturned(if mark == Seen then 200 else 500))
      ensures b in old(bookings)
      ensures bookings == if mark == Failed then old(bookings)
                          else old(bookings)[b := old(bookings)[b].(status := BookingStatus.Cancelled)]
    {
      assert CancelSound(net, r) by {
        BookingLaws.RunIsSound(worlds, actions, |actions|);
      }
      Take(Mark(r, mark != Failed, mark == Seen));
      if mark != Failed {
        bookings := bookings[b := bookings[b].(status := BookingStatus.Cancelled)];
      }
    }

    /** `readable` is false when the query for the booking fails. */
    method CancelBooking(r: RunId, b: BookingId, readable: bool, allowed: bool, release: seq<Fate>, mark: TableFate)
      returns (status: nat)
      requires Valid() && r !in net.cancels && Fates(release)
      modifies this, flights
      ensures Valid() && old(actions) <= actions
      ensures readable ==> r in net.cancels && net.cancels[r] == Cancel(b, CancelReturned(status))
      ensures !readable ==> status == 500
      ensures readable && b !in old(bookings) ==> status == 404
      ensures readable && b in old(bookings) && old(bookings)[b].status != Confirmed ==> status == 400
      ensures readable && b in old(bookings) && old(bookings)[b].status == Confirmed && !allowed ==> status == 503
      ensures !CancelAsks(old(bookings), b, readable, allowed) ==>
        flights.Contents() == old(flights.Contents()) && bookings == old(bookings)
      ensures CancelAsks(old(bookings), b, readable, allowed) ==>
        var code := CodeAfter(old(flights.Contents()), Request.ReleaseReservation(b), release);
        && status == (if code != OK then HttpStatus(code) else if mark == Seen then 200 else 500)
        && bookings == (if code == OK && mark != Failed
                        then old(bookings)[b := old(bookings)[b].(status := BookingStatus.Cancelled)]
                            else old(bookings))
        && flights.Contents() == DbAfter(old(flights.Contents()), Request.ReleaseReservation(b), release)
      ensures CancelAsks(old(bookings), b, readable, allowed) ==>
        var active := old(IsActive(flights.Contents(), b));
        && (IsActive(flights.Contents(), b) <==> active && !Reaches(release))
        && (release[0].Answered? ==> (status == 404 <==> !active))
        && (UnreachedAtLast(release) ==> status == 503)
        && (status == 200 <==>
            && mark == Seen && active
            && release[LastAttempt(release)].Answered? && !ArrivesBefore(release, LastAttempt(release)))
    {
      hide BookingLaws.IsRun, Apply, Balanced, SeatsHeld, HttpStatus, CodeOf, DbAfter, CodeAfter;
      if !readable {
        return 500;
      }
      if b in bookings {
        BookingIsBacked(worlds, actions, b);
        RetriedRelease(flights.Contents(), b, release);
        CancelRefused(flights.Contents(), b, release);
      }
      TakeStartCancel(r, b, allowed);
      if b !in bookings {
        return 404;
      }
      if bookings[b].status != Confirmed {
        return 400;
      }
      if !allowed {
        return 503;
      }
      var code, _ := Release(r, b, release);
      if code != OK {
        return HttpStatus(code);
      }
      MarkRow(r, b, mark);
      if mark != Seen {
        return 500;
      }
      status := 200;
    }
  }
}
