/** The result codes of the flight service's remote calls. */
module FlightApi {
  import opened Grpc
  import opened FlightDb

  /** Which refusal of the store has which code, told by the situation of the call. */
  lemma ReserveCodes(db: Db, f: FlightId, b: BookingId, seats: nat)
    requires Balanced(db)
    ensures var code := CodeOf(Reserve(db, f, b, seats).1);
            && (code == OK <==> OnOffer(db, f) && Fits(db, f, seats) && Rank(db, b) == 0)
            && (code == Code.NotFound <==> !OnOffer(db, f))
            && (code == ResourceExhausted <==> OnOffer(db, f) && !Fits(db, f, seats))
            && (code == Code.AlreadyExists <==> OnOffer(db, f) && Fits(db, f, seats) && Rank(db, b) > 0)
  {
    ReserveAnswers(db, f, b, seats);
  }

  lemma ReleaseCodes(db: Db, b: BookingId)
    requires Balanced(db)
    ensures var code := CodeOf(Release(db, b).1);
            && (code == OK <==> Rank(db, b) == 1)
            && (code == Code.NotFound <==> Rank(db, b) != 1)
  {
    ReleaseAnswers(db, b);
  }

  function ErrorCode(e: StoreError): Code {
    match e
    case NotFound => Code.NotFound
    case NoSeats => ResourceExhausted
    case AlreadyExists => Code.AlreadyExists
    case OtherError => Internal
  }

  function CodeOf(result: Result): (code: Code)
    ensures code == OK <==> result.Ok?
    ensures !TransportFailure(code)
  {
    match result
    case Ok(_) => OK
    case Err(e) => ErrorCode(e)
  }

  /** The HTTP status that the booking service returns for a failed remote call. */
  function HttpStatus(code: Code): (status: nat)
    ensures status != 200 && status != 201
    ensures status == 404 <==> code == Code.NotFound
    ensures status == 409 <==> code == ResourceExhausted || code == Code.AlreadyExists
    ensures status == 400 <==> code == InvalidArgument
    ensures status == 503 <==> TransportFailure(code)
    ensures status == 400 || status == 404 || status == 409 || status == 500 || status == 503
  {
    match code
    case NotFound => 404
    case ResourceExhausted => 409
    case AlreadyExists => 409
    case InvalidArgument => 400
    case Unavailable => 503
    case DeadlineExceeded => 503
    case _ => 500
  }
}
