/**
 The flight service: remote calls answered from the cache and the store.  Each method is one call
 that nothing interrupts; module CacheProtocol interleaves their steps.
 */
module FlightServer {
  import opened Grpc
  import opened FlightDb
  import opened FlightApi
  import opened FlightStore
  import opened FlightCache
  import CacheProtocol

  /** What a committed write does to the cache, given the row as it was read again. */
  function AfterWrite(r: Redis, now: nat, ttl: nat, f: FlightId, row: Flight): Redis {
    var day := SearchKey(row.info.origin, row.info.destination, OnDay(row.info.DepartureDay()));
    var any := SearchKey(row.info.origin, row.info.destination, AnyDay);
    var dropped := Del(Del(Del(r, FlightKey(f)), day), any);
    var raised := SetVersionIfNewer(dropped, now, ttl, FlightKey(f), row.version);
    SetVersionIfNewer(SetVersionIfNewer(raised, now, ttl, day, row.version), now, ttl, any, row.version)
  }

  /** Once the write is through, no payload older than it can be hit, or installed, for its flight. */
  lemma AfterWriteIsFresh(r: Redis, now: nat, ttl: nat, f: FlightId, row: Flight, version: nat, payload: Payload)
    requires ttl > 0
    ensures var after := AfterWrite(r, now, ttl, f, row);
            && FlightKey(f) !in after.payloads
            && SearchKey(row.info.origin, row.info.destination, AnyDay) !in after.payloads
            && (version < row.version ==> SetIfNewer(after, now, ttl, FlightKey(f), version, payload) == after)
  {
  }

  /** The keys that a write of a flight reaches: the flight's, and those of the lists of its route. */
  predicate Reached(k: Key, f: FlightId, row: Flight) {
    || k == FlightKey(f)
    || k == SearchKey(row.info.origin, row.info.destination, OnDay(row.info.DepartureDay()))
    || k == SearchKey(row.info.origin, row.info.destination, AnyDay)
  }

  /**
   Each of these keys is fenced: its payload is gone, anything older than the write is refused from now on,
   and what is not older is refused only if it was before.
   */
  lemma WriteFences(r: Redis, now: nat, ttl: nat, f: FlightId, row: Flight, k: Key, version: nat, payload: Payload)
    requires ttl > 0 && Reached(k, f, row)
    ensures var after := AfterWrite(r, now, ttl, f, row);
            && k !in after.payloads && Fenced(after, now, k)
            && (version < row.version ==> SetIfNewer(after, now, ttl, k, version, payload) == after)
            && (version >= row.version ==> (Accepts(after, now, k, version) <==> Accepts(r, now, k, version)))
  {
  }

  /** Every other key is left as it was. */
  lemma WriteLeavesOthers(r: Redis, now: nat, ttl: nat, f: FlightId, row: Flight, k: Key)
    requires !Reached(k, f, row)
    ensures var after := AfterWrite(r, now, ttl, f, row);
            && (k in after.payloads <==> k in r.payloads) && (k in r.payloads ==> after.payloads[k] == r.payloads[k])
            && (k in after.versions <==> k in r.versions) && (k in r.versions ==> after.versions[k] == r.versions[k])
  {
  }

  // ---------------------------------------------------------------- one handler of CacheProtocol, alone

  /** Process `p` of module CacheProtocol after `n` steps in a row, all of whose calls succeed. */
  function Alone(ttl: nat, cache: State, db: Db, p: CacheProtocol.Proc, cursor: seq<FlightId>, n: nat)
    : (State, CacheProtocol.Proc)
    requires forall f :: f in cursor ==> f in db.flights
    decreases n
  {
    if n == 0 then (cache, p)
    else Alone(ttl, Do(ttl, cache, CacheProtocol.Command(p)), db,
               CacheProtocol.Stepped(cache, db, p, true, cursor), cursor, n - 1)
  }

  /** The seven stages of a writer that nothing interrupts come to what a write does to the cache. */
  lemma WriterAlone(ttl: nat, now: nat, r: Redis, db: Db, f: FlightId, committed: nat, row: Flight)
    requires f in db.flights
    ensures Alone(ttl, State(now, r), db, CacheProtocol.Writing(f, CacheProtocol.DropFlight, committed, row), [], 7) ==
              (State(now, AfterWrite(r, now, ttl, f, db.flights[f])), CacheProtocol.Done)
  {
  }

  /** A reader of a flight that nothing interrupts does what `GetFlight` does. */
  lemma FlightReaderAlone(ttl: nat, now: nat, r: Redis, db: Db, f: FlightId)
    ensures Alone(ttl, State(now, r), db, CacheProtocol.LookUpFlight(f), [], 3) ==
              (State(now, if Hit(r, now, FlightKey(f)) || f !in db.flights then r
                          else SetIfNewer(r, now, ttl, FlightKey(f), db.flights[f].version,
                                          OneFlight(Found(f, db.flights[f])))), CacheProtocol.Done)
  {
  }

  /** A reader of a list that nothing interrupts does what `SearchFlights` does. */
  lemma ListReaderAlone(ttl: nat, now: nat, r: Redis, db: Db, origin: nat, destination: nat, date: DateFilter,
                        cursor: seq<FlightId>)
    requires forall f :: f in cursor ==> f in db.flights
    ensures var k := SearchKey(origin, destination, date);
            var rows := RowsAt(db, cursor);
            Alone(ttl, State(now, r), db, CacheProtocol.LookUpSearch(origin, destination, date), cursor, 3) ==
              (State(now, if Hit(r, now, k) then r
                          else SetIfNewer(r, now, ttl, k, CacheProtocol.MaxVersion(rows), FlightList(rows))),
               CacheProtocol.Done)
  {
  }

  /** The keys of the lists that show a flight. */
  predicate Shows(k: Key, row: Flight) {
    k.SearchKey? && Matches(row, k.origin, k.destination, k.date)
  }

  /**
   A write reaches every list that shows its flight exactly if the flight date is the day of departure,
   or no list of the flight date was there: lists are kept by flight date and deleted by day of departure.
   */
  lemma ListsDroppedIff(r: Redis, now: nat, ttl: nat, f: FlightId, row: Flight)
    requires row.status == Scheduled
    ensures (forall k :: Shows(k, row) ==> k !in AfterWrite(r, now, ttl, f, row).payloads) <==>
            row.info.flightDate == row.info.DepartureDay()
            || SearchKey(row.info.origin, row.info.destination, OnDay(row.info.flightDate)) !in r.payloads
  {
    var dated := SearchKey(row.info.origin, row.info.destination, OnDay(row.info.flightDate));
    var any := SearchKey(row.info.origin, row.info.destination, AnyDay);
    assert Shows(dated, row);
    forall k | Shows(k, row)
      ensures k == dated || k == any
    {
      assert k == SearchKey(k.origin, k.destination, k.date);
      assert k.date == if k.date.AnyDay? then AnyDay else OnDay(k.date.day);
    }
  }

  class Server {
    const store: Store
    const cache: Cache?

    constructor (store: Store, cache: Cache?)
      ensures this.store == store && this.cache == cache
    {
      this.store, this.cache := store, cache;
    }

    method GetFlight(now: nat, f: FlightId) returns (code: Code, flight: Found)
      modifies cache
      ensures code == OK || code == Code.NotFound
      ensures (cache != null && old(Hit(cache.Contents(), now, FlightKey(f)))
               && old(cache.payloads[FlightKey(f)]).payload.OneFlight?) ==>
        && code == OK && flight == old(cache.payloads[FlightKey(f)]).payload.flight
        && cache.Contents() == old(cache.Contents())
      ensures cache == null || !old(Hit(cache.Contents(), now, FlightKey(f))) ==>
        && (code == OK <==> f in store.Contents().flights)
        && (code == OK ==> flight == Found(f, store.Contents().flights[f]))
        && (cache != null ==>
              cache.Contents() ==
              (if code != OK then old(cache.Contents())
               else SetIfNewer(old(cache.Contents()), now, cache.ttl, FlightKey(f), flight.row.version,
                   OneFlight(flight))))
    {
      flight := Found(f, Flight(FlightInfo(0, 0, 0, 0, 0, 0), 0, 0, Scheduled, 0));
      if cache != null {
        var hit, payload := cache.Get(now, FlightKey(f));
        if hit && payload.OneFlight? {
          return OK, payload.flight;
        }
      }
      if f !in store.flights {
        return Code.NotFound, flight;
      }
      flight := Found(f, store.flights[f]);
      if cache != null {
        var _ := cache.SetPayloadIfNewer(now, FlightKey(f), flight.row.version, OneFlight(flight));
      }
      code := OK;
    }

    /** The rows of a search, and the version under which they may be cached. */
    method Collect(rows: seq<Found>) returns (maxVersion: nat, reply: seq<Found>)
      ensures reply == rows
      ensures maxVersion == CacheProtocol.MaxVersion(rows)
    {
      maxVersion, reply := 0, [];
      for i := 0 to |rows|
        invariant reply == rows[..i]
        invariant maxVersion == CacheProtocol.MaxVersion(rows[..i])
      {
        if rows[i].row.version > maxVersion {
          maxVersion := rows[i].row.version;
        }
        reply := reply + [rows[i]];
        assert rows[..i + 1][..i] == rows[..i];
      }
      assert rows[..|rows|] == rows;
    }

    method SearchFlights(now: nat, origin: nat, destination: nat, date: DateFilter, cursor: seq<FlightId>)
      returns (reply: seq<Found>)
      requires IsCursor(store.Contents(), origin, destination, date, cursor)
      modifies cache
      ensures cache != null && old(Hit(cache.Contents(), now, SearchKey(origin, destination, date)))
              && old(cache.payloads[SearchKey(origin, destination, date)]).payload.FlightList? ==>
        && reply == old(cache.payloads[SearchKey(origin, destination, date)]).payload.rows
        && cache.Contents() == old(cache.Contents())
      ensures cache == null || !old(Hit(cache.Contents(), now, SearchKey(origin, destination, date))) ==>
        && reply == RowsAt(store.Contents(), cursor)
        && (cache != null ==>
              cache.Contents() ==
              SetIfNewer(old(cache.Contents()), now, cache.ttl, SearchKey(origin, destination, date),
                         CacheProtocol.MaxVersion(reply), FlightList(reply)))
    {
      var k := SearchKey(origin, destination, date);
      if cache != null {
        var hit, payload := cache.Get(now, k);
        if hit && payload.FlightList? {
          return payload.rows;
        }
      }
      var rows := store.SearchFlights(origin, destination, date, cursor);
      var maxVersion;
      maxVersion, reply := Collect(rows);
      if cache != null {
        var _ := cache.SetPayloadIfNewer(now, k, maxVersion, FlightList(reply));
      }
    }

    /** Drop the payloads the write made old, then fence their version keys. */
    method Publish(now: nat, f: FlightId)
      requires cache != null
      modifies cache
      ensures cache.Contents() ==
        if f in store.Contents().flights then AfterWrite(old(cache.Contents()), now, cache.ttl, f,
            store.Contents().flights[f])
        else Del(old(cache.Contents()), FlightKey(f))
    {
      cache.Invalidate(FlightKey(f));
      if f in store.flights {
        var row := store.flights[f];
        var day := row.info.DepartureDay();
        cache.InvalidateSearch(row.info.origin, row.info.destination, day);
        var _ := cache.SetVersion(now, FlightKey(f), row.version);
        var _ := cache.SetVersion(now, SearchKey(row.info.origin, row.info.destination, OnDay(day)), row.version);
        var _ := cache.SetVersion(now, SearchKey(row.info.origin, row.info.destination, AnyDay), row.version);
      }
    }

    method ReserveSeats(now: nat, f: FlightId, b: BookingId, seats: int) returns (code: Code)
      modifies store, cache
      ensures seats <= 0 ==> code == InvalidArgument && store.Contents() == old(store.Contents())
      ensures seats > 0 ==>
        var (db, result) := Reserve(old(store.Contents()), f, b, seats);
        && store.Contents() == db && code == CodeOf(result)
        && (cache != null ==>
              cache.Contents() ==
              (if result.Ok? then AfterWrite(old(cache.Contents()), now, cache.ttl, f, db.flights[f])
               else old(cache.Contents())))
    {
      if seats <= 0 {
        return InvalidArgument;
      }
      var result := store.ReserveSeats(f, b, seats);
      if result.Err? {
        return ErrorCode(result.error);
      }
      if cache != null {
        Publish(now, f);
      }
      code := OK;
    }

    method ReleaseReservation(now: nat, b: BookingId) returns (code: Code)
      modifies store, cache
      ensures var (db, result) := Release(old(store.Contents()), b);
        && store.Contents() == db && code == CodeOf(result)
        && (cache != null && result.Err? ==> cache.Contents() == old(cache.Contents()))
        && (cache != null && result.Ok? && result.reservation.flight in db.flights ==>
              cache.Contents() == AfterWrite(old(cache.Contents()), now, cache.ttl, result.reservation.flight,
                                             db.flights[result.reservation.flight]))
    {
      var result := store.ReleaseReservation(b);
      if result.Err? {
        return ErrorCode(result.error);
      }
      if cache != null {
        Publish(now, result.reservation.flight);
      }
      code := OK;
    }
  }
}
