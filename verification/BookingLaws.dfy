/** What every run of the booking protocol keeps, and what it does not promise. */
module BookingLaws {
  import opened Grpc
  import opened FlightDb
  import opened BookingSaga
  import Sums

  ghost predicate IsRun(worlds: seq<World>, actions: seq<Action>) {
    && |worlds| == |actions| + 1
    && Balanced(worlds[0].db) && worlds[0] == World(Db(worlds[0].db.flights, map[]), map[], {}, {}, map[], map[])
    && forall i :: 0 <= i < |actions| ==> CanAct(worlds[i], actions[i]) && worlds[i + 1] == Act(worlds[i], actions[i])
  }

  /** The network may deliver whatever was sent, again and again, and end any attempt in any error. */
  lemma NetworkIsFree(w: World, m: Message, b: BookingId, r: RunId, code: Code)
    ensures m in w.sent ==> CanAct(w, Deliver(m)) && m in Act(w, Deliver(m)).sent
    ensures b in w.creates && w.creates[b].stage.Reserving? && !Accepted(code) ==> CanAct(w, ReserveEnds(b, code))
    ensures b in w.creates && w.creates[b].stage.Compensating? ==> CanAct(w, CompensationEnds(b, code))
    ensures r in w.cancels && w.cancels[r].stage.Releasing? && code != OK ==> CanAct(w, ReleaseEnds(r, code))
  {
  }

  /** An insertion reported as failed may be stored at any later time, and operators may change flights. */
  lemma LateRowMayCome(w: World, b: BookingId, allowed: bool, f: FlightId, row: Flight)
    ensures (CanAct(w, Insert(b, false, false, allowed)) && b !in w.bookings ==>
               CanAct(Act(w, Insert(b, false, false, allowed)), StoreLate(b)))
    ensures (CanAct(w, StoreLate(b)) ==>
               && b in Act(w, StoreLate(b)).bookings && Act(w, StoreLate(b)).bookings[b].status == Confirmed
               && Act(w, StoreLate(b)).creates[b].stage == w.creates[b].stage)
    ensures CanAct(w, Operate(f, row)) ==> Act(w, Operate(f, row)).db.flights == w.db.flights[f := row]
  {
  }

  lemma {:induction false} RunIsSound(worlds: seq<World>, actions: seq<Action>, n: nat)
    requires IsRun(worlds, actions) && n < |worlds|
    ensures Sound(worlds[n])
  {
    if n > 0 {
      RunIsSound(worlds, actions, n - 1);
      ActKeepsSound(worlds[n - 1], actions[n - 1]);
    }
  }

  // ---------------------------------------------------------------- reservations only advance

  lemma ActAdvances(w: World, a: Action)
    requires CanAct(w, a)
    ensures Advanced(w.db, Act(w, a).db)
  {
    if a.Deliver? {
      ApplyAdvances(w.db, a.message.request);
    }
  }

  lemma AdvancedTransitive(a: Db, b: Db, c: Db)
    requires Advanced(a, b) && Advanced(b, c)
    ensures Advanced(a, c)
  {
    forall k
      ensures Rank(a, k) <= Rank(c, k)
    {
      assert Rank(a, k) <= Rank(b, k) <= Rank(c, k);
    }
  }

  /** A reservation only goes from absent to active to released, and is never rewritten. */
  lemma {:induction false} ReservationsAdvance(worlds: seq<World>, actions: seq<Action>, i: nat, j: nat)
    requires IsRun(worlds, actions) && i <= j < |worlds|
    ensures Advanced(worlds[i].db, worlds[j].db)
  {
    if i < j {
      ReservationsAdvance(worlds, actions, i, j - 1);
      ActAdvances(worlds[j - 1], actions[j - 1]);
      AdvancedTransitive(worlds[i].db, worlds[j - 1].db, worlds[j].db);
    }
  }

  lemma ActSends(w: World, a: Action)
    requires CanAct(w, a)
    ensures w.sent <= Act(w, a).sent
  {
  }

  lemma {:induction false} SentGrows(worlds: seq<World>, actions: seq<Action>, i: nat, j: nat)
    requires IsRun(worlds, actions) && i <= j < |worlds|
    ensures worlds[i].sent <= worlds[j].sent
  {
    hide Act, CanAct;
    if i < j {
      SentGrows(worlds, actions, i, j - 1);
      ActSends(worlds[j - 1], actions[j - 1]);
    }
  }

  // ---------------------------------------------------------------- what deliveries do

  /** Nobody asks for the release of seats that were never taken. */
  ghost predicate ReleasesNameHeld(w: World) {
    forall m :: m in w.sent && m.request.ReleaseReservation? ==> Held(w.db, m.request.booking)
  }

  lemma ActKeepsReleasesHeld(w: World, a: Action)
    requires Sound(w) && ReleasesNameHeld(w) && CanAct(w, a)
    ensures ReleasesNameHeld(Act(w, a))
  {
    var w' := Act(w, a);
    ActAdvances(w, a);
    AdvancedKeepsStatus(w.db, w'.db);
    forall m | m in w'.sent && m.request.ReleaseReservation?
      ensures Held(w'.db, m.request.booking)
    {
      if m !in w.sent {
        NewReleaseIsHeld(w, a, m);
      }
    }
  }

  /** A handler that sends a release has seen the reservation, or the booking that it backs. */
  lemma NewReleaseIsHeld(w: World, a: Action, m: Message)
    requires Sound(w) && CanAct(w, a) && m in Act(w, a).sent && m !in w.sent && m.request.ReleaseReservation?
    ensures Held(w.db, m.request.booking)
  {
    match a
    case Insert(b, _, _, _) => assert CreateSound(w, b);
    case CompensationEnds(b, _) => assert CreateSound(w, b);
    case StartCancel(_, b, _) => assert BookingSound(w, b);
    case ReleaseEnds(r, _) =>
      assert CancelSound(w, r);
      assert BookingSound(w, w.cancels[r].booking);
    case _ =>
  }

  lemma {:induction false} RunNamesHeld(worlds: seq<World>, actions: seq<Action>, n: nat)
    requires IsRun(worlds, actions) && n < |worlds|
    ensures ReleasesNameHeld(worlds[n])
  {
    if n > 0 {
      RunNamesHeld(worlds, actions, n - 1);
      RunIsSound(worlds, actions, n - 1);
      ActKeepsReleasesHeld(worlds[n - 1], actions[n - 1]);
    }
  }

  /** Action `i` delivers a release of booking `b`, whatever the answer. */
  ghost predicate ReleaseDelivered(actions: seq<Action>, i: nat, b: BookingId) {
    i < |actions| && actions[i].Deliver? && actions[i].message.request == ReleaseReservation(b)
  }

  /** The action delivers a reservation for booking `b` to a scheduled flight with enough seats left. */
  ghost predicate Offers(db: Db, a: Action, b: BookingId) {
    && a.Deliver? && a.message.request.ReserveSeats? && a.message.request.booking == b
    && OnOffer(db, a.message.request.flight) && Fits(db, a.message.request.flight, a.message.request.seats)
  }

  ghost predicate SeatsOffered(worlds: seq<World>, actions: seq<Action>, i: nat, b: BookingId) {
    i < |actions| && i < |worlds| && Offers(worlds[i].db, actions[i], b)
  }

  /** Only the delivery of its own reservation takes seats for a booking, and it does so if they are on offer. */
  lemma HeldAfterOffer(w: World, a: Action, b: BookingId)
    requires Balanced(w.db) && CanAct(w, a)
    ensures Held(Act(w, a).db, b) <==> Held(w.db, b) || Offers(w.db, a, b)
  {
    if a.Deliver? {
      ApplyAdvances(w.db, a.message.request);
      if a.message.request.ReserveSeats? {
        ReserveAnswers(w.db, a.message.request.flight, a.message.request.booking, a.message.request.seats);
      }
    }
  }

  /** A booking has a reservation exactly if some delivery of its request found enough seats on offer. */
  lemma {:induction false} HeldIffOffered(worlds: seq<World>, actions: seq<Action>, n: nat, b: BookingId)
    requires IsRun(worlds, actions) && n < |worlds|
    ensures Held(worlds[n].db, b) <==> exists i: nat :: i < n && SeatsOffered(worlds, actions, i, b)
  {
    hide Act, CanAct, Held, Offers, Balanced;
    if n == 0 {
      NothingHeldAtStart(worlds, actions, b);
    } else {
      HeldIffOffered(worlds, actions, n - 1, b);
      RunIsSound(worlds, actions, n - 1);
      HeldAfterOffer(worlds[n - 1], actions[n - 1], b);
      if Offers(worlds[n - 1].db, actions[n - 1], b) {
        assert SeatsOffered(worlds, actions, n - 1, b);
      }
    }
  }

  lemma NothingHeldAtStart(worlds: seq<World>, actions: seq<Action>, b: BookingId)
    requires IsRun(worlds, actions)
    ensures !Held(worlds[0].db, b)
  {
  }

  /** A release that is delivered leaves its reservation released, whatever its answer; nothing else does. */
  lemma ReleasedAfterDelivery(w: World, a: Action, b: BookingId)
    requires ReleasesNameHeld(w) && CanAct(w, a)
    ensures IsReleased(Act(w, a).db, b) <==>
            IsReleased(w.db, b) || (a.Deliver? && a.message.request == ReleaseReservation(b))
  {
    ActAdvances(w, a);
    AdvancedKeepsStatus(w.db, Act(w, a).db);
    if a.Deliver? {
      ApplyAdvances(w.db, a.message.request);
      assert a.message.request == ReleaseReservation(b) ==> Held(w.db, b);
    }
  }

  /** A reservation is released exactly if some release of it was delivered. */
  lemma {:induction false} ReleasedIffDelivered(worlds: seq<World>, actions: seq<Action>, n: nat, b: BookingId)
    requires IsRun(worlds, actions) && n < |worlds|
    ensures IsReleased(worlds[n].db, b) <==> exists i: nat :: i < n && ReleaseDelivered(actions, i, b)
  {
    hide Act, CanAct, Held, ReleasesNameHeld;
    if n == 0 {
      NothingHeldAtStart(worlds, actions, b);
    } else {
      ReleasedIffDelivered(worlds, actions, n - 1, b);
      RunNamesHeld(worlds, actions, n - 1);
      ReleasedAfterDelivery(worlds[n - 1], actions[n - 1], b);
      if actions[n - 1].Deliver? && actions[n - 1].message.request == ReleaseReservation(b) {
        assert ReleaseDelivered(actions, n - 1, b);
      }
    }
  }

  /** A release that was delivered was sent by a cancel run, or by a create run that gave up. */
  lemma ReleaseHasReason(worlds: seq<World>, actions: seq<Action>, n: nat, i: nat, b: BookingId)
    requires IsRun(worlds, actions) && i < n < |worlds| && ReleaseDelivered(actions, i, b)
    ensures actions[i].message in worlds[n].sent
    ensures var sender := actions[i].message.sender;
            sender.ByCancel? || (sender == ByCreate(b) && b in worlds[n].creates && GaveUp(worlds[n].creates[b].stage))
  {
    RunIsSound(worlds, actions, n);
    SentGrows(worlds, actions, i, n);
    assert MessageSound(worlds[n], actions[i].message);
  }

  // ---------------------------------------------------------------- the two databases agree

  /** Every booking has its reservation, and a cancelled booking has given its seats back. */
  lemma BookingsAreBacked(worlds: seq<World>, actions: seq<Action>, n: nat, b: BookingId)
    requires IsRun(worlds, actions) && n < |worlds| && b in worlds[n].bookings
    ensures var w := worlds[n];
            && b in w.db.reservations
            && w.db.reservations[b].flight == w.bookings[b].flight
            && w.db.reservations[b].seats == w.bookings[b].seats
            && (w.bookings[b].status == BookingStatus.Cancelled ==> w.db.reservations[b].status == Released)
  {
    RunIsSound(worlds, actions, n);
    assert BookingSound(worlds[n], b) && ReservationSound(worlds[n], b);
  }

  /** A cancel run asked the flight service to release booking `b`. */
  ghost predicate CancelAsked(w: World, b: BookingId) {
    exists m :: m in w.sent && m.sender.ByCancel? && m.request == ReleaseReservation(b)
  }

  /**
   Seats are held without a booking exactly if a reservation was delivered while the seats were on offer,
   no release was delivered, and the create run has not returned 201 and has no lost insertion.
   */
  lemma HeldWithoutBookingIff(worlds: seq<World>, actions: seq<Action>, n: nat, b: BookingId)
    requires IsRun(worlds, actions) && n < |worlds|
    ensures var w := worlds[n];
            IsActive(w.db, b) && b !in w.bookings <==>
            && b in w.creates && w.creates[b].stage != CreateReturned(201) && w.creates[b].insertion != Lost
            && (exists i: nat :: i < n && SeatsOffered(worlds, actions, i, b))
            && !(exists i: nat :: i < n && ReleaseDelivered(actions, i, b))
  {
    RunIsSound(worlds, actions, n);
    HeldIffOffered(worlds, actions, n, b);
    ReleasedIffDelivered(worlds, actions, n, b);
    var w := worlds[n];
    assert b in w.db.reservations ==> ReservationSound(w, b);
    assert b in w.creates ==> CreateSound(w, b);
  }

  /**
   Action `i` delivers a release of booking `b` that a cancel run sent, or that its create run sent
   although its insertion went through.
   */
  ghost predicate LostAt(w: World, actions: seq<Action>, i: nat, b: BookingId)
    requires b in w.creates
  {
    && ReleaseDelivered(actions, i, b)
    && (actions[i].message.sender.ByCancel?
        || (actions[i].message.sender == ByCreate(b) && w.creates[b].insertion == Lost))
  }

  /**
   A confirmed booking has lost its seats exactly if a release of it was delivered, whatever its answer,
   that a cancel run sent, or that its own create run sent because the insertion of the booking went
   through but was reported as failed.
   */
  lemma ConfirmedLosesSeatsIff(worlds: seq<World>, actions: seq<Action>, n: nat, b: BookingId)
    requires IsRun(worlds, actions) && n < |worlds|
    requires b in worlds[n].bookings && worlds[n].bookings[b].status == Confirmed
    ensures b in worlds[n].creates
    ensures IsReleased(worlds[n].db, b) <==> exists i: nat :: i < n && LostAt(worlds[n], actions, i, b)
  {
    RunIsSound(worlds, actions, n);
    ReleasedIffDelivered(worlds, actions, n, b);
    var w := worlds[n];
    assert BookingSound(w, b) && CreateSound(w, b);
    if IsReleased(w.db, b) {
      var i: nat :| i < n && ReleaseDelivered(actions, i, b);
      ReleaseHasReason(worlds, actions, n, i, b);
      assert LostAt(w, actions, i, b);
    }
  }

  /** So a create that returned 201 keeps its seats until somebody cancels. */
  lemma CreatedKeepsSeats(worlds: seq<World>, actions: seq<Action>, n: nat, b: BookingId)
    requires IsRun(worlds, actions) && n < |worlds|
    requires b in worlds[n].creates && worlds[n].creates[b].stage == CreateReturned(201) && !CancelAsked(worlds[n], b)
    ensures b in worlds[n].bookings && worlds[n].bookings[b].status == Confirmed
    ensures IsActive(worlds[n].db, b)
  {
    RunIsSound(worlds, actions, n);
    var w := worlds[n];
    assert CreateSound(w, b) && BookingSound(w, b);
    ReleasedIffDelivered(worlds, actions, n, b);
    if IsReleased(w.db, b) {
      var i: nat :| i < n && ReleaseDelivered(actions, i, b);
      ReleaseHasReason(worlds, actions, n, i, b);
    }
  }

  /** At most one cancel of a booking returns 200, and then the booking and its seats are given up. */
  lemma CancelledOnce(worlds: seq<World>, actions: seq<Action>, n: nat, q: RunId, r: RunId)
    requires IsRun(worlds, actions) && n < |worlds| && q in worlds[n].cancels && r in worlds[n].cancels
    requires worlds[n].cancels[q].stage == CancelReturned(200) && worlds[n].cancels[r].stage == CancelReturned(200)
    requires worlds[n].cancels[q].booking == worlds[n].cancels[r].booking
    ensures q == r
    ensures worlds[n].cancels[q].booking in worlds[n].bookings
    ensures worlds[n].bookings[worlds[n].cancels[q].booking].status == BookingStatus.Cancelled
    ensures IsReleased(worlds[n].db, worlds[n].cancels[q].booking)
  {
    RunIsSound(worlds, actions, n);
    var w := worlds[n];
    var b := w.cancels[q].booking;
    assert CancelSound(w, q) && CancelSound(w, r) && BookingSound(w, b);
    var i :| Reply(CancelMessage(q, w.cancels[q], i), OK) in w.replies;
    var j :| Reply(CancelMessage(r, w.cancels[r], j), OK) in w.replies;
    assert Releases(Reply(CancelMessage(q, w.cancels[q], i), OK), ReleaseReservation(b));
    assert Releases(Reply(CancelMessage(r, w.cancels[r], j), OK), ReleaseReservation(b));
  }

  // ---------------------------------------------------------------- seats move once

  /** Action `i` is a request that the flight service processes with success. */
  ghost predicate Succeeds(worlds: seq<World>, actions: seq<Action>, i: nat, request: Request) {
    && i < |actions| && i < |worlds| && actions[i].Deliver? && actions[i].message.request == request
    && Apply(worlds[i].db, request).1.Ok?
  }

  /** However often a request is sent and delivered, it takes or returns the seats at most once. */
  lemma SucceedsOnce(worlds: seq<World>, actions: seq<Action>, i: nat, j: nat, first: Request, second: Request)
    requires IsRun(worlds, actions) && i < j
    requires Succeeds(worlds, actions, i, first) && Succeeds(worlds, actions, j, second)
    requires first.booking == second.booking
    ensures first.ReserveSeats? && second.ReleaseReservation?
  {
    var b := first.booking;
    ApplyAdvances(worlds[i].db, first);
    ApplyAdvances(worlds[j].db, second);
    assert worlds[i + 1] == Act(worlds[i], actions[i]);
    ReservationsAdvance(worlds, actions, i + 1, j);
    assert Rank(worlds[i + 1].db, b) <= Rank(worlds[j].db, b);
  }

  /** Since its insertion a flight's version has counted its reservations, and its released reservations once more. */
  lemma VersionCountsCalls(worlds: seq<World>, actions: seq<Action>, n: nat, f: FlightId)
    requires IsRun(worlds, actions) && n < |worlds| && f in worlds[n].db.flights
    ensures var row := worlds[n].db.flights[f];
            row.version == row.info.firstVersion + Sums.Total(worlds[n].db.reservations, VersionMoves(f))
    ensures worlds[n].db.flights[f].available + SeatsHeld(worlds[n].db, f) == worlds[n].db.flights[f].total
  {
    RunIsSound(worlds, actions, n);
  }

  // ---------------------------------------------------------------- no overbooking

  ghost function SeatsBooked(db: Db, f: FlightId, b: BookingId, booking: Booking): nat {
    if booking.flight == f && IsActive(db, b) then booking.seats else 0
  }

  /** The seats of the bookings of flight `f` whose reservation is still active. */
  ghost function BookedSeats(db: Db, f: FlightId): (BookingId, Booking) -> nat {
    (b: BookingId, booking: Booking) => SeatsBooked(db, f, b, booking)
  }

  /** The bookings that still have their seats never hold more seats than the flight has. */
  lemma NoOverbooking(worlds: seq<World>, actions: seq<Action>, n: nat, f: FlightId)
    requires IsRun(worlds, actions) && n < |worlds| && f in worlds[n].db.flights
    ensures Sums.Total(worlds[n].bookings, BookedSeats(worlds[n].db, f))
              <= worlds[n].db.flights[f].total - worlds[n].db.flights[f].available
              <= worlds[n].db.flights[f].total
  {
    RunIsSound(worlds, actions, n);
    var w := worlds[n];
    forall b | b in w.bookings && BookedSeats(w.db, f)(b, w.bookings[b]) > 0
      ensures b in w.db.reservations
      ensures BookedSeats(w.db, f)(b, w.bookings[b]) <= ActiveSeats(f)(b, w.db.reservations[b])
    {
      BookingsAreBacked(worlds, actions, n, b);
    }
    Sums.TotalDominated(w.bookings, BookedSeats(w.db, f), w.db.reservations, ActiveSeats(f));
  }

  // ---------------------------------------------------------------- what is not promised

  ghost predicate Reachable(w: World) {
    exists worlds, actions :: IsRun(worlds, actions) && worlds[|actions|] == w
  }

  lemma ReachableStep(w: World, a: Action)
    requires Reachable(w) && CanAct(w, a)
    ensures Reachable(Act(w, a))
  {
    hide Act, CanAct, Balanced;
    var worlds, actions :| IsRun(worlds, actions) && worlds[|actions|] == w;
    var worlds', actions' := worlds + [Act(w, a)], actions + [a];
    assert IsRun(worlds', actions');
    assert worlds'[|actions'|] == Act(w, a);
  }

  function Start(f: FlightId, row: Flight): World {
    World(Db(map[f := row], map[]), map[], {}, {}, map[], map[])
  }

  lemma StartIsReachable(f: FlightId, row: Flight)
    requires NewFlight(row)
    ensures Reachable(Start(f, row))
  {
    var worlds, actions := [Start(f, row)], [];
    assert IsRun(worlds, actions);
    assert worlds[|actions|] == Start(f, row);
  }

  /** A reservation that went through, and whose answer is still on its way. */
  ghost predicate Answered(w: World, b: BookingId) {
    && Reachable(w) && w.bookings == map[] && w.cancels == map[]
    && b in w.creates && w.creates[b].stage == Reserving(0)
    && IsActive(w.db, b)
    && Reply(ReserveMessage(b, w.creates[b], 0), OK) in w.replies
  }

  lemma AnsweredIsReachable(f: FlightId, row: Flight, b: BookingId, seats: nat) returns (w: World)
    requires NewFlight(row) && row.status == Scheduled && 0 < seats <= row.total
    ensures Answered(w, b)
  {
    StartIsReachable(f, row);
    var w0 := Start(f, row);
    ReachableStep(w0, StartCreate(b, f, seats, true));
    var w1 := Act(w0, StartCreate(b, f, seats, true));
    var m := ReserveMessage(b, w1.creates[b], 0);
    assert m in w1.sent;
    ReachableStep(w1, Deliver(m));
    w := Act(w1, Deliver(m));
    assert Apply(w1.db, m.request).1.Ok?;
    assert Reply(m, OK) in w.replies;
  }

  /**
   A lost answer leaks seats.  The caller hangs up while the answer is on its way: the create run is
   over, nobody has a booking, and the seats stay taken.
   */
  lemma SeatsCanLeak(f: FlightId, row: Flight, b: BookingId, seats: nat) returns (w: World)
    requires NewFlight(row) && row.status == Scheduled && 0 < seats <= row.total
    ensures Reachable(w) && b !in w.bookings && w.cancels == map[]
    ensures b in w.creates && w.creates[b].stage == CreateReturned(500)
    ensures IsActive(w.db, b)
  {
    var sent := AnsweredIsReachable(f, row, b, seats);
    ReachableStep(sent, ReserveEnds(b, Canceled));
    w := Act(sent, ReserveEnds(b, Canceled));
  }

  lemma CreatedIsReachable(f: FlightId, row: Flight, b: BookingId, seats: nat) returns (w: World)
    requires NewFlight(row) && row.status == Scheduled && 0 < seats <= row.total
    ensures Reachable(w) && w.cancels == map[]
    ensures b in w.bookings && w.bookings[b].status == Confirmed
    ensures b in w.creates && w.creates[b].stage == CreateReturned(201)
    ensures IsActive(w.db, b)
  {
    var sent := AnsweredIsReachable(f, row, b, seats);
    ReachableStep(sent, ReserveEnds(b, OK));
    var inserting := Act(sent, ReserveEnds(b, OK));
    ReachableStep(inserting, Insert(b, true, true, true));
    w := Act(inserting, Insert(b, true, true, true));
  }

  /**
   A confirmed booking can be left without seats: the create returned 201, and a cancel released
   the seats but then failed to mark the booking.
   */
  lemma ConfirmedCanLoseSeats(f: FlightId, row: Flight, b: BookingId, seats: nat, r: RunId) returns (w: World)
    requires NewFlight(row) && row.status == Scheduled && 0 < seats <= row.total
    ensures Reachable(w) && b in w.bookings && w.bookings[b].status == Confirmed && IsReleased(w.db, b)
    ensures b in w.creates && w.creates[b].stage == CreateReturned(201)
    ensures r in w.cancels && w.cancels[r].stage == CancelReturned(500)
  {
    var created := CreatedIsReachable(f, row, b, seats);
    ReachableStep(created, StartCancel(r, b, true));
    var asked := Act(created, StartCancel(r, b, true));
    var m := CancelMessage(r, asked.cancels[r], 0);
    ReachableStep(asked, Deliver(m));
    var released := Act(asked, Deliver(m));
    assert IsReleased(released.db, b) && Reply(m, OK) in released.replies;
    w := MarkingCanFail(released, r);
  }

  /**
   It can even happen without any cancellation: the insertion is stored, its handler sees an error, and
   the compensation releases the seats.
   */
  lemma LostInsertionLosesSeats(f: FlightId, row: Flight, b: BookingId, seats: nat) returns (w: World)
    requires NewFlight(row) && row.status == Scheduled && 0 < seats <= row.total
    ensures Reachable(w) && w.cancels == map[]
    ensures b in w.bookings && w.bookings[b].status == Confirmed && IsReleased(w.db, b)
  {
    var answered := AnsweredIsReachable(f, row, b, seats);
    ReachableStep(answered, ReserveEnds(b, OK));
    var inserting := Act(answered, ReserveEnds(b, OK));
    ReachableStep(inserting, Insert(b, true, false, true));
    var compensating := Act(inserting, Insert(b, true, false, true));
    var m := CompensationMessage(b, 0);
    assert m in compensating.sent;
    ReachableStep(compensating, Deliver(m));
    w := Act(compensating, Deliver(m));
  }

  lemma MarkingCanFail(released: World, r: RunId) returns (w: World)
    requires Reachable(released)
    requires r in released.cancels && released.cancels[r].stage == Releasing(0)
    requires Reply(CancelMessage(r, released.cancels[r], 0), OK) in released.replies
    ensures Reachable(w) && w.bookings == released.bookings && w.db == released.db && w.creates == released.creates
    ensures r in w.cancels && w.cancels[r].stage == CancelReturned(500)
  {
    ReachableStep(released, ReleaseEnds(r, OK));
    var marking := Act(released, ReleaseEnds(r, OK));
    ReachableStep(marking, Mark(r, false, false));
    w := Act(marking, Mark(r, false, false));
  }
}
