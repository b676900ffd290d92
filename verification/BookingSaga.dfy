/**
 Creating and cancelling bookings across two databases.

 A handler reserves seats by remote calls, writes its own table, and compensates when that fails.
 Requests wait in a bag: each may be lost, delayed, or processed several times, also after its sender
 gave up.  A handler that takes no more steps has crashed.  Each create run uses a booking id of its
 own, and is named after it.  The flight service answers with `FlightDb.Apply`, which module
 FlightTransactions shows its transactions to amount to.
 */
module BookingSaga {
  import opened Grpc
  import opened FlightDb
  import opened FlightApi

  type RunId = nat

  datatype BookingStatus = Confirmed | Cancelled

  datatype Booking = Booking(flight: FlightId, seats: nat, status: BookingStatus)

  datatype Sender = ByCreate(booking: BookingId) | ByCancel(run: RunId)

  datatype Message = Message(sender: Sender, attempt: nat, request: Request)

  datatype Reply = Reply(message: Message, code: Code)

  datatype CreateStage = Reserving(attempt: nat) | Inserting | Compensating(attempt: nat) | CreateReturned(status: nat)

  /**
   What became of an insertion that its handler saw fail: it is `Open` as long as the database may still
   store the row, and `Lost` once it has.
   */
  datatype Insertion = Known | Open | Lost

  datatype Create = Create(flight: FlightId, seats: nat, stage: CreateStage, insertion: Insertion)

  datatype CancelStage = Releasing(attempt: nat) | Marking | CancelReturned(status: nat)

  datatype Cancel = Cancel(booking: BookingId, stage: CancelStage)

  datatype World = World(
    db: Db,
    bookings: map<BookingId, Booking>,
    sent: set<Message>,
    replies: set<Reply>,
    creates: map<BookingId, Create>,
    cancels: map<RunId, Cancel>)

  datatype Action =
      // `allowed` is the answer of the circuit breaker
    | StartCreate(booking: BookingId, flight: FlightId, seats: nat, allowed: bool)
    | Deliver(message: Message)
    | ReserveEnds(booking: BookingId, code: Code)
      // the row is `stored`, the handler sees it `acked`
    | Insert(booking: BookingId, stored: bool, acked: bool, allowed: bool)
      // the row of an insertion reported as failed is stored after all
    | StoreLate(booking: BookingId)
    | CompensationEnds(booking: BookingId, code: Code)
    | StartCancel(run: RunId, booking: BookingId, allowed: bool)
    | ReleaseEnds(run: RunId, code: Code)
    | Mark(run: RunId, stored: bool, acked: bool)
    | Operate(flight: FlightId, row: Flight)

  function ReserveMessage(b: BookingId, c: Create, attempt: nat): Message {
    Message(ByCreate(b), attempt, ReserveSeats(c.flight, b, c.seats))
  }

  function CompensationMessage(b: BookingId, attempt: nat): Message {
    Message(ByCreate(b), attempt, ReleaseReservation(b))
  }

  function CancelMessage(r: RunId, c: Cancel, attempt: nat): Message {
    Message(ByCancel(r), attempt, ReleaseReservation(c.booking))
  }

  /** The handler goes on to its table after these answers to a reservation. */
  predicate Accepted(code: Code) {
    code == OK || code == Code.AlreadyExists
  }

  ghost predicate CanAct(w: World, a: Action) {
    match a
    case StartCreate(b, f, seats, _) => b !in w.creates && seats > 0
    case Deliver(m) => m in w.sent
    case ReserveEnds(b, code) =>
      && b in w.creates && w.creates[b].stage.Reserving?
      && (Accepted(code) ==> Reply(ReserveMessage(b, w.creates[b], w.creates[b].stage.attempt), code) in w.replies)
    case Insert(b, stored, acked, _) =>
      b in w.creates && w.creates[b].stage.Inserting? && (acked ==> stored) && (stored ==> b !in w.bookings)
    case StoreLate(b) => b in w.creates && w.creates[b].insertion == Open && b !in w.bookings
    case CompensationEnds(b, _) => b in w.creates && w.creates[b].stage.Compensating?
    case StartCancel(r, _, _) => r !in w.cancels
    case ReleaseEnds(r, code) =>
      && r in w.cancels && w.cancels[r].stage.Releasing?
      && (code == OK ==> Reply(CancelMessage(r, w.cancels[r], w.cancels[r].stage.attempt), OK) in w.replies)
    case Mark(r, stored, acked) =>
      r in w.cancels && w.cancels[r].stage.Marking? && (acked ==> stored) && (stored ==>
          w.cancels[r].booking in w.bookings)
    case Operate(f, row) =>
      if f in w.db.flights then exists s :: row == w.db.flights[f].(status := s) else NewFlight(row)
  }

  function CreateAt(w: World, b: BookingId, stage: CreateStage, messages: set<Message>): World
    requires b in w.creates
  {
    w.(creates := w.creates[b := w.creates[b].(stage := stage)], sent := w.sent + messages)
  }

  function CancelAt(w: World, r: RunId, stage: CancelStage, messages: set<Message>): World
    requires r in w.cancels
  {
    w.(cancels := w.cancels[r := w.cancels[r].(stage := stage)], sent := w.sent + messages)
  }

  /** The create run after its insertion: it returns 201, compensates, or fails without being able to. */
  function AfterInsert(c: Create, stored: bool, acked: bool, allowed: bool): Create {
    c.(stage := if acked then CreateReturned(201) else if allowed then Compensating(0) else CreateReturned(500),
       insertion := if acked then Known else if stored then Lost else Open)
  }

  function Marked(w: World, b: BookingId, stored: bool): World {
    if stored && b in w.bookings then w.(bookings := w.bookings[b := w.bookings[b].(status := Cancelled)]) else w
  }

  function Act(w: World, a: Action): World
    requires CanAct(w, a)
  {
    match a
    case StartCreate(b, f, seats, allowed) =>
      var c := Create(f, seats, if allowed then Reserving(0) else CreateReturned(503), Known);
      w.(creates := w.creates[b := c], sent := w.sent + (if allowed then {ReserveMessage(b, c, 0)} else {}))
    case Deliver(m) =>
      var (db, result) := Apply(w.db, m.request);
      w.(db := db, replies := w.replies + {Reply(m, CodeOf(result))})
    case ReserveEnds(b, code) =>
      var k := w.creates[b].stage.attempt;
      if Accepted(code) then CreateAt(w, b, Inserting, {})
      else if Retries(k, code) then CreateAt(w, b, Reserving(k + 1), {ReserveMessage(b, w.creates[b], k + 1)})
      else CreateAt(w, b, CreateReturned(HttpStatus(code)), {})
    case Insert(b, stored, acked, allowed) =>
      var c := AfterInsert(w.creates[b], stored, acked, allowed);
      w.(creates := w.creates[b := c],
         bookings := if stored then w.bookings[b := Booking(c.flight, c.seats, Confirmed)] else w.bookings,
         sent := w.sent + (if c.stage.Compensating? then {CompensationMessage(b, 0)} else {}))
    case StoreLate(b) =>
      var c := w.creates[b];
      w.(creates := w.creates[b := c.(insertion := Lost)],
         bookings := w.bookings[b := Booking(c.flight, c.seats, Confirmed)])
    case CompensationEnds(b, code) =>
      var k := w.creates[b].stage.attempt;
      if Retries(k, code) then CreateAt(w, b, Compensating(k + 1), {CompensationMessage(b, k + 1)})
      else CreateAt(w, b, CreateReturned(500), {})
    case StartCancel(r, b, allowed) =>
      var c := Cancel(b, if b !in w.bookings then CancelReturned(404)
                         else if w.bookings[b].status != Confirmed then CancelReturned(400)
                         else if allowed then Releasing(0) else CancelReturned(503));
      w.(cancels := w.cancels[r := c], sent := w.sent + (if c.stage.Releasing? then {CancelMessage(r, c, 0)} else {}))
    case ReleaseEnds(r, code) =>
      var k := w.cancels[r].stage.attempt;
      if code == OK then CancelAt(w, r, Marking, {})
      else if Retries(k, code) then CancelAt(w, r, Releasing(k + 1), {CancelMessage(r, w.cancels[r], k + 1)})
      else CancelAt(w, r, CancelReturned(HttpStatus(code)), {})
    case Mark(r, stored, acked) =>
      CancelAt(Marked(w, w.cancels[r].booking, stored), r, CancelReturned(if acked then 200 else 500), {})
    case Operate(f, row) => w.(db := w.db.(flights := w.db.flights[f := row]))
  }

  // ---------------------------------------------------------------- the invariant, in parts

  predicate Held(db: Db, b: BookingId) {
    b in db.reservations
  }

  predicate IsActive(db: Db, b: BookingId) {
    b in db.reservations && db.reservations[b].status == Active
  }

  predicate IsReleased(db: Db, b: BookingId) {
    b in db.reservations && db.reservations[b].status == Released
  }

  /** The create run is past its reservation, and has not returned 201. */
  predicate GaveUp(stage: CreateStage) {
    stage.Compensating? || (stage.CreateReturned? && stage.status != 201)
  }

  /** Every message was sent by the run it names, with the data of that run. */
  predicate MessageSound(w: World, m: Message) {
    match m.sender
    case ByCreate(b) =>
      b in w.creates && (m.request == ReserveSeats(w.creates[b].flight, b, w.creates[b].seats)
                         || (m.request == ReleaseReservation(b) && GaveUp(w.creates[b].stage)))
    case ByCancel(r) =>
      r in w.cancels && m.request == ReleaseReservation(w.cancels[r].booking) && w.cancels[r].booking in w.bookings
  }

  /** An answer that lets a handler go on tells the truth about the flight database. */
  predicate ReplySound(db: Db, reply: Reply) {
    match reply.message.request
    case ReserveSeats(_, b, _) => Accepted(reply.code) ==> Held(db, b)
    case ReleaseReservation(b) => reply.code == OK ==> IsReleased(db, b)
  }

  ghost predicate CreateSound(w: World, b: BookingId)
    requires b in w.creates
  {
    var c := w.creates[b];
    && c.seats > 0
    && (c.stage.Inserting? || c.stage.Compensating? ==> Held(w.db, b))
    && (b in w.bookings <==> c.stage == CreateReturned(201) || c.insertion == Lost)
    && (c.insertion != Known ==> GaveUp(c.stage) && Held(w.db, b))
  }

  predicate BookingSound(w: World, b: BookingId)
    requires b in w.bookings
  {
    var booking := w.bookings[b];
    && b in w.creates && Held(w.db, b)
    && booking.flight == w.creates[b].flight && booking.seats == w.creates[b].seats
    && (booking.status == Cancelled ==> IsReleased(w.db, b))
  }

  predicate ReservationSound(w: World, b: BookingId)
    requires b in w.db.reservations
  {
    && b in w.creates
    && w.db.reservations[b].flight == w.creates[b].flight && w.db.reservations[b].seats == w.creates[b].seats
  }

  /** Some attempt of cancel run `r` was told that it released the seats. */
  ghost predicate ReleaseWon(replies: set<Reply>, r: RunId, c: Cancel) {
    exists k :: Reply(CancelMessage(r, c, k), OK) in replies
  }

  ghost predicate CancelSound(w: World, r: RunId)
    requires r in w.cancels
  {
    var c := w.cancels[r];
    && (c.stage.Releasing? ==> c.booking in w.bookings)
    && (c.stage.Marking? || c.stage == CancelReturned(200) ==> c.booking in w.bookings && ReleaseWon(w.replies, r, c))
    && (c.stage == CancelReturned(200) ==> w.bookings[c.booking].status == Cancelled)
  }

  predicate Releases(reply: Reply, request: Request) {
    reply.message.request == request && request.ReleaseReservation? && reply.code == OK
  }

  /** A reservation is released for one message only. */
  ghost predicate OneRelease(replies: set<Reply>) {
    forall p, q, request :: p in replies && q in replies && Releases(p, request) && Releases(q, request) ==> p == q
  }

  ghost predicate Sound(w: World) {
    && Balanced(w.db)
    && (forall m :: m in w.sent ==> MessageSound(w, m))
    && (forall reply :: reply in w.replies ==> reply.message in w.sent && ReplySound(w.db, reply))
    && (forall b :: b in w.creates ==> CreateSound(w, b))
    && (forall b :: b in w.bookings ==> BookingSound(w, b))
    && (forall b :: b in w.db.reservations ==> ReservationSound(w, b))
    && (forall r :: r in w.cancels ==> CancelSound(w, r))
    && OneRelease(w.replies)
  }

  // ---------------------------------------------------------------- the invariant is kept

  /** A step of create run `b`: its own record, its own booking row, and messages of its own. */
  lemma CreateStepKeepsSound(w: World, w': World, b: BookingId)
    requires Sound(w)
    requires w'.db == w.db && w'.replies == w.replies && w'.cancels == w.cancels
    requires b in w'.creates && w'.creates == w.creates[b := w'.creates[b]]
    requires b in w.creates ==> w'.creates[b].flight == w.creates[b].flight && w'.creates[b].seats == w.creates[b].seats
    requires b in w.creates && GaveUp(w.creates[b].stage) ==> GaveUp(w'.creates[b].stage)
    requires w'.bookings == w.bookings
      || (b !in w.bookings && w'.bookings ==
          w.bookings[b := Booking(w'.creates[b].flight, w'.creates[b].seats, Confirmed)])
    requires w.sent <= w'.sent && forall m :: m in w'.sent && m !in w.sent ==> MessageSound(w', m)
    requires CreateSound(w', b) && (b in w'.bookings ==> Held(w.db, b))
    ensures Sound(w')
  {
    hide Balanced, IsReleased, ReplySound, ReleaseWon, OneRelease;
    forall m | m in w'.sent
      ensures MessageSound(w', m)
    {
      assert m in w.sent ==> MessageSound(w, m);
    }
    forall d | d in w'.creates
      ensures CreateSound(w', d)
    {
      assert d != b ==> CreateSound(w, d);
    }
    forall d | d in w'.bookings
      ensures BookingSound(w', d)
    {
      assert d in w.bookings ==> BookingSound(w, d);
    }
    forall d | d in w'.db.reservations
      ensures ReservationSound(w', d)
    {
      assert ReservationSound(w, d);
    }
    forall r | r in w'.cancels
      ensures CancelSound(w', r)
    {
      assert CancelSound(w, r);
      if w.cancels[r].booking in w.bookings {
        assert w'.bookings[w.cancels[r].booking] == w.bookings[w.cancels[r].booking];
      }
    }
  }

  /** A step of cancel run `r`: its own record, the status of its booking, and messages of its own. */
  lemma CancelStepKeepsSound(w: World, w': World, r: RunId)
    requires Sound(w)
    requires w'.db == w.db && w'.replies == w.replies && w'.creates == w.creates
    requires r in w'.cancels && w'.cancels == w.cancels[r := w'.cancels[r]]
    requires r in w.cancels ==> w'.cancels[r].booking == w.cancels[r].booking
    requires var b := w'.cancels[r].booking;
             w'.bookings == w.bookings
             || (b in w.bookings && IsReleased(w.db, b)
                 && w'.bookings == w.bookings[b := w.bookings[b].(status := BookingStatus.Cancelled)])
    requires w.sent <= w'.sent && forall m :: m in w'.sent && m !in w.sent ==> MessageSound(w', m)
    requires CancelSound(w', r)
    ensures Sound(w')
  {
    hide Balanced, ReplySound, ReleaseWon, OneRelease;
    forall m | m in w'.sent
      ensures MessageSound(w', m)
    {
      assert m in w.sent ==> MessageSound(w, m);
    }
    forall d | d in w'.creates
      ensures CreateSound(w', d)
    {
      assert CreateSound(w, d);
    }
    forall d | d in w'.bookings
      ensures BookingSound(w', d)
    {
      assert BookingSound(w, d);
    }
    forall d | d in w'.db.reservations
      ensures ReservationSound(w', d)
    {
      assert ReservationSound(w, d);
    }
    forall q | q in w'.cancels
      ensures CancelSound(w', q)
    {
      assert q != r ==> CancelSound(w, q);
    }
  }

  lemma AdvancedKeepsStatus(db: Db, later: Db)
    requires Advanced(db, later)
    ensures forall b :: Held(db, b) ==> Held(later, b)
    ensures forall b :: IsReleased(db, b) ==> IsReleased(later, b)
  {
    forall b | Held(db, b)
      ensures Held(later, b) && (IsReleased(db, b) ==> IsReleased(later, b))
    {
      assert Rank(db, b) <= Rank(later, b);
    }
  }

  /** A change of the flight database that only moves reservations on. */
  lemma AdvanceKeepsRuns(w: World, w': World)
    requires Sound(w)
    requires w'.creates == w.creates && w'.bookings == w.bookings && w'.cancels == w.cancels && w'.sent == w.sent
    requires w.replies <= w'.replies && Advanced(w.db, w'.db)
    ensures forall m :: m in w'.sent ==> MessageSound(w', m)
    ensures forall b :: b in w'.creates ==> CreateSound(w', b)
    ensures forall b :: b in w'.bookings ==> BookingSound(w', b)
    ensures forall r :: r in w'.cancels ==> CancelSound(w', r)
    ensures forall reply :: reply in w.replies ==> reply.message in w'.sent && ReplySound(w'.db, reply)
  {
    AdvancedKeepsStatus(w.db, w'.db);
    forall m | m in w'.sent
      ensures MessageSound(w', m)
    {
      assert MessageSound(w, m);
    }
    forall b | b in w'.creates
      ensures CreateSound(w', b)
    {
      assert CreateSound(w, b);
    }
    forall b | b in w'.bookings
      ensures BookingSound(w', b)
    {
      assert BookingSound(w, b);
    }
    forall r | r in w'.cancels
      ensures CancelSound(w', r)
    {
      assert CancelSound(w, r);
      if ReleaseWon(w.replies, r, w.cancels[r]) {
        assert ReleaseWon(w'.replies, r, w.cancels[r]);
      }
    }
    forall reply | reply in w.replies
      ensures ReplySound(w'.db, reply)
    {
      assert ReplySound(w.db, reply);
    }
  }

  /** A message that releases a reservation is the first to do so. */
  lemma FirstRelease(w: World, m: Message)
    requires Sound(w) && m in w.sent && m.request.ReleaseReservation? && Apply(w.db, m.request).1.Ok?
    ensures forall p :: p in w.replies ==> !Releases(p, m.request)
  {
    forall p | p in w.replies
      ensures !Releases(p, m.request)
    {
      assert ReplySound(w.db, p);
    }
  }

  lemma DeliverKeepsReservations(w: World, m: Message)
    requires MessageSound(w, m) && forall b :: b in w.db.reservations ==> ReservationSound(w, b)
    ensures var w' := w.(db := Apply(w.db, m.request).0);
            forall b :: b in w'.db.reservations ==> ReservationSound(w', b)
  {
    forall b | b in Apply(w.db, m.request).0.reservations
      ensures ReservationSound(w.(db := Apply(w.db, m.request).0), b)
    {
      assert b in w.db.reservations ==> ReservationSound(w, b);
    }
  }

  lemma MessageWellFormed(w: World, m: Message)
    requires MessageSound(w, m) && forall b :: b in w.creates ==> CreateSound(w, b)
    ensures WellFormed(m.request)
  {
    if m.sender.ByCreate? {
      assert CreateSound(w, m.sender.booking);
    }
  }

  lemma DeliverKeepsReplies(w: World, m: Message)
    requires Sound(w) && m in w.sent
    ensures ReplySound(Apply(w.db, m.request).0, Reply(m, CodeOf(Apply(w.db, m.request).1)))
    ensures OneRelease(w.replies + {Reply(m, CodeOf(Apply(w.db, m.request).1))})
  {
    hide Balanced, MessageSound, CreateSound, BookingSound, ReservationSound, CancelSound;
    if m.request.ReleaseReservation? && Apply(w.db, m.request).1.Ok? {
      FirstRelease(w, m);
    }
  }

  lemma DeliverKeepsSound(w: World, m: Message)
    requires Sound(w) && CanAct(w, Deliver(m))
    ensures Sound(Act(w, Deliver(m)))
  {
    hide Apply, Balanced, CreateSound, BookingSound, CancelSound, OneRelease, ReplySound;
    var w' := Act(w, Deliver(m));
    assert MessageSound(w, m);
    MessageWellFormed(w, m);
    ApplyKeepsBalanced(w.db, m.request);
    ApplyAdvances(w.db, m.request);
    AdvanceKeepsRuns(w, w');
    DeliverKeepsReplies(w, m);
    DeliverKeepsReservations(w, m);
    forall b | b in w'.db.reservations
      ensures ReservationSound(w', b)
    {
      assert ReservationSound(w.(db := w'.db), b);
    }
  }

  lemma OperateKeepsSound(w: World, f: FlightId, row: Flight)
    requires Sound(w) && CanAct(w, Operate(f, row))
    ensures Sound(Act(w, Operate(f, row)))
  {
    hide Balanced, CreateSound, BookingSound, CancelSound, OneRelease, ReplySound;
    var w' := Act(w, Operate(f, row));
    OperatorKeepsBalanced(w.db, f, row);
    AdvanceKeepsRuns(w, w');
    forall b | b in w'.db.reservations
      ensures ReservationSound(w', b)
    {
      assert ReservationSound(w, b);
    }
  }

  lemma BookedIsCreated(w: World, b: BookingId)
    requires Sound(w)
    ensures b in w.bookings ==> b in w.creates
  {
    if b in w.bookings {
      assert BookingSound(w, b);
    }
  }

  lemma StartCreateKeepsSound(w: World, a: Action)
    requires Sound(w) && CanAct(w, a) && a.StartCreate?
    ensures Sound(Act(w, a))
  {
    hide Balanced, BookingSound, ReservationSound, CancelSound, OneRelease, ReplySound;
    BookedIsCreated(w, a.booking);
    CreateStepKeepsSound(w, Act(w, a), a.booking);
  }

  lemma ReserveEndsKeepsSound(w: World, a: Action)
    requires Sound(w) && CanAct(w, a) && a.ReserveEnds?
    ensures Sound(Act(w, a))
  {
    hide Balanced, BookingSound, ReservationSound, CancelSound, OneRelease;
    var c := w.creates[a.booking];
    assert CreateSound(w, a.booking);
    if Accepted(a.code) {
      assert ReplySound(w.db, Reply(ReserveMessage(a.booking, c, c.stage.attempt), a.code));
    }
    CreateStepKeepsSound(w, Act(w, a), a.booking);
  }

  lemma InsertKeepsSound(w: World, a: Action)
    requires Sound(w) && CanAct(w, a) && a.Insert?
    ensures Sound(Act(w, a))
  {
    hide Balanced, BookingSound, ReservationSound, CancelSound, OneRelease;
    assert CreateSound(w, a.booking);
    CreateStepKeepsSound(w, Act(w, a), a.booking);
  }

  lemma StoreLateKeepsSound(w: World, a: Action)
    requires Sound(w) && CanAct(w, a) && a.StoreLate?
    ensures Sound(Act(w, a))
  {
    hide Balanced, BookingSound, ReservationSound, CancelSound, OneRelease, ReplySound;
    assert CreateSound(w, a.booking);
    CreateStepKeepsSound(w, Act(w, a), a.booking);
  }

  lemma CompensationEndsKeepsSound(w: World, a: Action)
    requires Sound(w) && CanAct(w, a) && a.CompensationEnds?
    ensures Sound(Act(w, a))
  {
    hide Balanced, BookingSound, ReservationSound, CancelSound, OneRelease;
    assert CreateSound(w, a.booking);
    CreateStepKeepsSound(w, Act(w, a), a.booking);
  }

  lemma ReleaseEndsKeepsSound(w: World, a: Action)
    requires Sound(w) && CanAct(w, a) && a.ReleaseEnds?
    ensures Sound(Act(w, a))
  {
    hide Balanced, CreateSound, BookingSound, ReservationSound, OneRelease;
    var w' := Act(w, a);
    var k := w.cancels[a.run].stage.attempt;
    assert CancelSound(w, a.run);
    assert CancelMessage(a.run, w'.cancels[a.run], k) == CancelMessage(a.run, w.cancels[a.run], k);
    CancelStepKeepsSound(w, w', a.run);
  }

  lemma MarkKeepsSound(w: World, a: Action)
    requires Sound(w) && CanAct(w, a) && a.Mark?
    ensures Sound(Act(w, a))
  {
    hide Balanced, CreateSound, BookingSound, ReservationSound, OneRelease;
    var w' := Act(w, a);
    var c := w.cancels[a.run];
    assert CancelSound(w, a.run);
    var k :| Reply(CancelMessage(a.run, c, k), OK) in w.replies;
    assert ReplySound(w.db, Reply(CancelMessage(a.run, c, k), OK));
    assert CancelMessage(a.run, w'.cancels[a.run], k) == CancelMessage(a.run, c, k);
    CancelStepKeepsSound(w, w', a.run);
  }

  lemma StartCancelKeepsSound(w: World, a: Action)
    requires Sound(w) && CanAct(w, a) && a.StartCancel?
    ensures Sound(Act(w, a))
  {
    hide Balanced, CreateSound, BookingSound, ReservationSound, OneRelease, ReplySound;
    CancelStepKeepsSound(w, Act(w, a), a.run);
  }

  lemma ActKeepsSound(w: World, a: Action)
    requires Sound(w) && CanAct(w, a)
    ensures Sound(Act(w, a))
  {
    match a
    case StartCreate(_, _, _, _) => StartCreateKeepsSound(w, a);
    case Deliver(m) => DeliverKeepsSound(w, m);
    case ReserveEnds(_, _) => ReserveEndsKeepsSound(w, a);
    case Insert(_, _, _, _) => InsertKeepsSound(w, a);
    case StoreLate(_) => StoreLateKeepsSound(w, a);
    case CompensationEnds(_, _) => CompensationEndsKeepsSound(w, a);
    case StartCancel(_, _, _) => StartCancelKeepsSound(w, a);
    case ReleaseEnds(_, _) => ReleaseEndsKeepsSound(w, a);
    case Mark(_, _, _) => MarkKeepsSound(w, a);
    case Operate(f, row) => OperateKeepsSound(w, f, row);
  }
}
