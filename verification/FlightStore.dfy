/** The store of the flight service: each method is one transaction, run without interruption. */
module FlightStore {
  import opened FlightDb

  class Store {
    var flights: map<FlightId, Flight>
    var reservations: map<BookingId, Reservation>

    ghost function Contents(): Db
      reads this
    {
      Db(flights, reservations)
    }

    constructor (flights: map<FlightId, Flight>)
      requires forall f :: f in flights ==> NewFlight(flights[f])
      ensures Contents() == Db(flights, map[])
      ensures Balanced(Contents())
    {
      this.flights := flights;
      this.reservations := map[];
    }

    method ReserveSeats(flight: FlightId, booking: BookingId, seats: nat) returns (result: Result)
      modifies this
      ensures (Contents(), result) == Reserve(old(Contents()), flight, booking, seats)
      ensures old(Balanced(Contents())) && seats > 0 ==> Balanced(Contents())
    {
      ghost var before := Contents();
      if flight !in flights {
        return Err(NotFound);
      }
      var row := flights[flight];
      if row.status != Scheduled {
        return Err(NotFound);
      }
      if row.available < seats {
        return Err(NoSeats);
      }
      if booking in reservations {
        return Err(AlreadyExists);
      }
      flights := flights[flight := row.(available := row.available - seats, version := row.version + 1)];
      var reservation := Reservation(flight, seats, Active);
      reservations := reservations[booking := reservation];
      result := Ok(reservation);
      assert (Contents(), result) == Apply(before, Request.ReserveSeats(flight, booking, seats));
      if Balanced(before) && seats > 0 {
        ApplyKeepsBalanced(before, Request.ReserveSeats(flight, booking, seats));
      }
    }

    method ReleaseReservation(booking: BookingId) returns (result: Result)
      modifies this
      ensures (Contents(), result) == Release(old(Contents()), booking)
      ensures old(Balanced(Contents())) ==> Balanced(Contents())
    {
      ghost var before := Contents();
      if booking !in reservations {
        return Err(NotFound);
      }
      var reservation := reservations[booking];
      if reservation.status != Active {
        return Err(NotFound);
      }
      if reservation.flight in flights {
        var row := flights[reservation.flight];
        row := row.(available := row.available + reservation.seats, version := row.version + 1);
        flights := flights[reservation.flight := row];
      }
      reservation := reservation.(status := Released);
      reservations := reservations[booking := reservation];
      result := Ok(reservation);
      assert (Contents(), result) == Apply(before, Request.ReleaseReservation(booking));
      if Balanced(before) {
        ApplyKeepsBalanced(before, Request.ReleaseReservation(booking));
      }
    }

    /** The rows of a query, in the order in which the database hands them out. */
    method SearchFlights(origin: nat, destination: nat, date: DateFilter, cursor: seq<FlightId>)
      returns (rows: seq<Found>)
      requires IsCursor(Contents(), origin, destination, date, cursor)
      ensures rows == RowsAt(Contents(), cursor)
    {
      rows := [];
      for i := 0 to |cursor|
        invariant rows == RowsAt(Contents(), cursor)[..i]
      {
        assert cursor[i] in cursor;
        rows := rows + [Found(cursor[i], flights[cursor[i]])];
      }
    }
  }
}
