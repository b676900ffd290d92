/** When a list that is hit shows a flight as it was before a write, and executions in which it does. */
module StaleLists {
  import opened FlightDb
  import opened FlightCache
  import opened CacheProtocol
  import opened StaleHits

  // ---------------------------------------------------------------- overtaken by another flight

  /** Two new flights that one search finds. */
  predicate Pair(f: FlightId, first: Flight, g: FlightId, second: Flight) {
    && f != g && NewFlight(first) && NewFlight(second)
    && first.status == Scheduled && second.status == Scheduled
    && first.info.origin == second.info.origin && first.info.destination == second.info.destination
  }

  function RouteKey(row: Flight): Key {
    SearchKey(row.info.origin, row.info.destination, AnyDay)
  }

  function StartPair(f: FlightId, first: Flight, g: FlightId, second: Flight): World {
    World(State(0, Redis(map[], map[])), [Db(map[f := first, g := second], map[])], map[])
  }

  lemma PairIsReachable(ttl: nat, f: FlightId, first: Flight, g: FlightId, second: Flight)
    requires Pair(f, first, g, second)
    ensures Reachable(ttl, StartPair(f, first, g, second))
  {
    var worlds, actions := [StartPair(f, first, g, second)], [];
    var empty, one := Db(map[], map[]), Db(map[f := first], map[]);
    OperatorKeepsBalanced(empty, f, first);
    assert empty.(flights := empty.flights[f := first]) == one;
    OperatorKeepsBalanced(one, g, second);
    assert one.(flights := one.flights[g := second]) == worlds[0].log[0];
    assert IsExecution(ttl, worlds, actions);
    assert worlds[|actions|] == StartPair(f, first, g, second);
  }

  /** A seat of the second flight is taken, by a writer that has not come to the cache yet. */
  lemma OtherSeatIsTaken(ttl: nat, f: FlightId, first: Flight, g: FlightId, second: Flight, other: ProcId, c: BookingId)
    returns (w: World)
    requires Pair(f, first, g, second)
    ensures Reachable(ttl, w) && w.cache == State(0, Redis(map[], map[])) && w.procs.Keys == {other}
    ensures Latest(w).flights == map[f := first, g := Taken(second, 1)]
    ensures Latest(w).reservations == map[c := Reservation(g, 1, Active)]
  {
    hide Reachable;
    PairIsReachable(ttl, f, first, g, second);
    var w0 := StartPair(f, first, g, second);
    var take := Commit(other, ReserveSeats(g, c, 1));
    ReachableStep(ttl, w0, take);
    w := Act(ttl, w0, take);
  }

  /** The two flights by departure. */
  function Listed(f: FlightId, first: Flight, g: FlightId, second: Flight): seq<FlightId> {
    if first.info.departure <= second.info.departure then [f, g] else [g, f]
  }

  /** Then a reader loads the list. */
  lemma PairIsLoaded(ttl: nat, f: FlightId, first: Flight, g: FlightId, second: Flight,
                     reader: ProcId, other: ProcId, c: BookingId)
    returns (w: World, rows: seq<Found>)
    requires Pair(f, first, g, second) && reader != other
    ensures Reachable(ttl, w) && w.cache == State(0, Redis(map[], map[])) && w.procs.Keys == {other, reader}
    ensures Latest(w).flights == map[f := first, g := Taken(second, 1)]
    ensures Latest(w).reservations == map[c := Reservation(g, 1, Active)]
    ensures w.procs[reader] == FillSearch(first.info.origin, first.info.destination, AnyDay, rows)
    ensures Found(f, first) in rows && Found(g, Taken(second, 1)) in rows
  {
    hide Reachable;
    var w0 := OtherSeatIsTaken(ttl, f, first, g, second, other, c);
    var search := LookUpSearch(first.info.origin, first.info.destination, AnyDay);
    ReachableStep(ttl, w0, Spawn(reader, search));
    var w1 := Act(ttl, w0, Spawn(reader, search));
    ReachableStep(ttl, w1, Proceed(reader, true, []));
    var w2 := Next(ttl, w1, reader);
    var ids := Listed(f, first, g, second);
    assert IsCursor(Latest(w2), first.info.origin, first.info.destination, AnyDay, ids);
    ReachableStep(ttl, w2, Proceed(reader, true, ids));
    w, rows := Act(ttl, w2, Proceed(reader, true, ids)), RowsAt(Latest(w2), ids);
    assert rows[0] in rows && rows[1] in rows;
  }

  /** Then a writer takes a seat of the first flight. */
  lemma SeatOfPairIsTaken(ttl: nat, f: FlightId, first: Flight, g: FlightId, second: Flight,
                          reader: ProcId, other: ProcId, writer: ProcId, b: BookingId, c: BookingId)
    returns (w: World, rows: seq<Found>)
    requires Pair(f, first, g, second) && reader != other && writer != reader && writer != other && b != c
    ensures Reachable(ttl, w) && w.cache == State(0, Redis(map[], map[]))
    ensures f in Latest(w).flights && Latest(w).flights[f] == Taken(first, 1)
    ensures reader in w.procs && writer in w.procs
    ensures w.procs[reader] == FillSearch(first.info.origin, first.info.destination, AnyDay, rows)
    ensures w.procs[writer] == Writing(f, DropFlight, first.version + 1, Taken(first, 1))
    ensures Found(f, first) in rows && Found(g, Taken(second, 1)) in rows
  {
    hide Reachable;
    var loaded;
    loaded, rows := PairIsLoaded(ttl, f, first, g, second, reader, other, c);
    var take := Commit(writer, ReserveSeats(f, b, 1));
    ReachableStep(ttl, loaded, take);
    w := Act(ttl, loaded, take);
  }

  /** Over an empty cache a writer has nothing to delete. */
  lemma WriterDrops(ttl: nat, before: World, f: FlightId, writer: ProcId, row: Flight) returns (w: World)
    requires Reachable(ttl, before) && writer in before.procs
    requires f in Latest(before).flights && Latest(before).flights[f] == row
    requires before.procs[writer] == Writing(f, DropFlight, row.version, row)
    requires before.cache == State(0, Redis(map[], map[]))
    ensures Reachable(ttl, w) && w.log == before.log && w.cache == before.cache
    ensures w.procs == before.procs[writer := Writing(f, RaiseFlight, row.version, row)]
  {
    hide Reachable;
    var w1 := WriterSteps(ttl, before, writer);
    var w2 := WriterSteps(ttl, w1, writer);
    var w3 := WriterSteps(ttl, w2, writer);
    w := WriterSteps(ttl, w3, writer);
    assert w.procs == before.procs[writer := Writing(f, RaiseFlight, row.version, row)];
  }

  /** So it ends with its three fences set and nothing else. */
  lemma WriterFinishes(ttl: nat, before: World, f: FlightId, writer: ProcId, row: Flight) returns (w: World)
    requires Reachable(ttl, before) && writer in before.procs
    requires f in Latest(before).flights && Latest(before).flights[f] == row
    requires before.procs[writer] == Writing(f, DropFlight, row.version, row)
    requires before.cache == State(0, Redis(map[], map[]))
    ensures Reachable(ttl, w) && w.log == before.log && w.procs == before.procs[writer := Done]
    ensures w.cache.now == 0 && w.cache.redis.payloads == map[]
    ensures SearchKey(row.info.origin, row.info.destination, AnyDay) in w.cache.redis.versions
    ensures w.cache.redis.versions[SearchKey(row.info.origin, row.info.destination, AnyDay)] == Fence(row.version, ttl)
  {
    hide Reachable;
    var w4 := WriterDrops(ttl, before, f, writer, row);
    var w5 := WriterSteps(ttl, w4, writer);
    var w6 := WriterSteps(ttl, w5, writer);
    w := WriterSteps(ttl, w6, writer);
    assert w.procs == before.procs[writer := Done];
  }

  lemma WriterSteps(ttl: nat, before: World, writer: ProcId) returns (w: World)
    requires Reachable(ttl, before) && writer in before.procs && before.procs[writer].Writing?
    ensures Reachable(ttl, w) && w.log == before.log
    ensures w.procs == before.procs[writer := Stepped(before.cache, Latest(before), before.procs[writer], true, [])]
    ensures w.cache == Do(ttl, before.cache, Command(before.procs[writer]))
  {
    hide Reachable;
    ReachableStep(ttl, before, Proceed(writer, true, []));
    w := Next(ttl, before, writer);
  }

  /** The first flight's version is not ahead: its old row is listed after its write is through. */
  lemma LowerGoesStale(ttl: nat, f: FlightId, first: Flight, g: FlightId, second: Flight,
                       reader: ProcId, other: ProcId, writer: ProcId, b: BookingId, c: BookingId)
    returns (w: World)
    requires ttl > 0 && Pair(f, first, g, second) && first.version <= second.version
    requires reader != other && writer != reader && writer != other && b != c
    ensures Reachable(ttl, w) && writer in w.procs && w.procs[writer] == Done
    ensures Hit(w.cache.redis, w.cache.now, RouteKey(first))
    ensures w.cache.redis.payloads[RouteKey(first)].payload.FlightList?
    ensures Found(f, first) in w.cache.redis.payloads[RouteKey(first)].payload.rows
    ensures f in Latest(w).flights && first.version < Latest(w).flights[f].version
  {
    hide Reachable;
    var taken, rows := SeatOfPairIsTaken(ttl, f, first, g, second, reader, other, writer, b, c);
    var written := WriterFinishes(ttl, taken, f, writer, Taken(first, 1));
    ReachableStep(ttl, written, Proceed(reader, true, []));
    w := Next(ttl, written, reader);
    MaxVersionIsMax(rows);
  }

  /**
   For every two new flights of one search, a list can show one of them as it was before a write of it that
   is through: the list was read before the write and is filled in after its fence, past which the
   other flight carries it.
   */
  lemma StaleListIsHit(ttl: nat, f: FlightId, first: Flight, g: FlightId, second: Flight,
                       reader: ProcId, other: ProcId, writer: ProcId, b: BookingId, c: BookingId)
    returns (w: World, x: FlightId, listed: Flight)
    requires ttl > 0 && Pair(f, first, g, second)
    requires reader != other && writer != reader && writer != other && b != c
    ensures (x, listed) == (f, first) || (x, listed) == (g, second)
    ensures Reachable(ttl, w) && writer in w.procs && w.procs[writer] == Done
    ensures Hit(w.cache.redis, w.cache.now, RouteKey(first))
    ensures w.cache.redis.payloads[RouteKey(first)].payload.FlightList?
    ensures Found(x, listed) in w.cache.redis.payloads[RouteKey(first)].payload.rows
    ensures x in Latest(w).flights && listed.version < Latest(w).flights[x].version
  {
    if first.version <= second.version {
      w := LowerGoesStale(ttl, f, first, g, second, reader, other, writer, b, c);
      x, listed := f, first;
    } else {
      w := LowerGoesStale(ttl, g, second, f, first, reader, other, writer, b, c);
      x, listed := g, second;
    }
  }

  // ---------------------------------------------------------------- kept by one date, deleted by another

  function DatedKey(row: Flight): Key {
    SearchKey(row.info.origin, row.info.destination, OnDay(row.info.flightDate))
  }

  /** A reader loads the list of the flight date, and fills it in. */
  lemma DatedListIsFilled(ttl: nat, f: FlightId, row: Flight, reader: ProcId) returns (w: World)
    requires NewFlight(row) && row.status == Scheduled
    ensures Reachable(ttl, w) && w.log == Start(f, row).log && w.procs == map[reader := Done] && w.cache.now == 0
    ensures DatedKey(row) in w.cache.redis.payloads
    ensures w.cache.redis.payloads[DatedKey(row)] == Entry(FlightList([Found(f, row)]), row.version, ttl)
  {
    hide Reachable;
    StartIsReachable(ttl, f, row);
    var w0 := Start(f, row);
    var search := LookUpSearch(row.info.origin, row.info.destination, OnDay(row.info.flightDate));
    ReachableStep(ttl, w0, Spawn(reader, search));
    var w1 := Act(ttl, w0, Spawn(reader, search));
    ReachableStep(ttl, w1, Proceed(reader, true, []));
    var w2 := Next(ttl, w1, reader);
    ReachableStep(ttl, w2, Proceed(reader, true, [f]));
    var w3 := Act(ttl, w2, Proceed(reader, true, [f]));
    assert RowsAt(Latest(w2), [f]) == [Found(f, row)];
    MaxVersionIsMax([Found(f, row)]);
    ReachableStep(ttl, w3, Proceed(reader, true, []));
    w := Next(ttl, w3, reader);
  }

  /** One step of a writer whose keys are others leaves a payload where it is. */
  lemma WriterPasses(ttl: nat, before: World, f: FlightId, writer: ProcId, stage: WriteStage, row: Flight, k: Key)
    returns (w: World)
    requires Reachable(ttl, before) && writer in before.procs
    requires f in Latest(before).flights && Latest(before).flights[f] == row
    requires before.procs[writer] == Writing(f, stage, row.version, row)
    requires k.SearchKey? && k.date.OnDay? && k.date.day != row.info.DepartureDay()
    requires k in before.cache.redis.payloads
    ensures Reachable(ttl, w) && w.log == before.log && w.cache.now == before.cache.now
    ensures writer in w.procs
    ensures w.procs[writer] == if stage == RaiseAnyDay then Done else Writing(f, NextStage(stage), row.version, row)
    ensures k in w.cache.redis.payloads && w.cache.redis.payloads[k] == before.cache.redis.payloads[k]
  {
    hide Reachable;
    w := WriterSteps(ttl, before, writer);
  }

  lemma WriterPassesAll(ttl: nat, before: World, f: FlightId, writer: ProcId, row: Flight, k: Key) returns (w: World)
    requires Reachable(ttl, before) && writer in before.procs
    requires f in Latest(before).flights && Latest(before).flights[f] == row
    requires before.procs[writer] == Writing(f, DropFlight, row.version, row)
    requires k.SearchKey? && k.date.OnDay? && k.date.day != row.info.DepartureDay()
    requires k in before.cache.redis.payloads
    ensures Reachable(ttl, w) && w.log == before.log && w.cache.now == before.cache.now
    ensures writer in w.procs && w.procs[writer] == Done
    ensures k in w.cache.redis.payloads && w.cache.redis.payloads[k] == before.cache.redis.payloads[k]
  {
    hide Reachable;
    w := WriterPasses(ttl, before, f, writer, DropFlight, row, k);
    w := WriterPasses(ttl, w, f, writer, Reread, row, k);
    w := WriterPasses(ttl, w, f, writer, DropDay, row, k);
    w := WriterPasses(ttl, w, f, writer, DropAnyDay, row, k);
    w := WriterPasses(ttl, w, f, writer, RaiseFlight, row, k);
    w := WriterPasses(ttl, w, f, writer, RaiseDay, row, k);
    w := WriterPasses(ttl, w, f, writer, RaiseAnyDay, row, k);
  }

  /**
   No race is needed when the flight date is not the day of departure: a list of the flight date is cached,
   then a seat is taken and the write goes through all its stages, and the list still shows the seat.
   */
  lemma DatedListStaysOld(ttl: nat, f: FlightId, row: Flight, reader: ProcId, writer: ProcId, b: BookingId)
    returns (w: World)
    requires ttl > 0 && NewFlight(row) && row.status == Scheduled && reader != writer
    requires row.info.flightDate != row.info.DepartureDay()
    ensures Reachable(ttl, w) && writer in w.procs && w.procs[writer] == Done
    ensures Hit(w.cache.redis, w.cache.now, DatedKey(row))
    ensures w.cache.redis.payloads[DatedKey(row)].payload == FlightList([Found(f, row)])
    ensures f in Latest(w).flights && row.version < Latest(w).flights[f].version
  {
    hide Reachable;
    var filled := DatedListIsFilled(ttl, f, row, reader);
    var take := Commit(writer, ReserveSeats(f, b, 1));
    ReachableStep(ttl, filled, take);
    var committed := Act(ttl, filled, take);
    w := WriterPassesAll(ttl, committed, f, writer, Taken(row, 1), DatedKey(row));
  }

  // ---------------------------------------------------------------- exactly when

  /** The list holds flight `f` at a version below `version`. */
  predicate OlderIn(payload: Payload, f: FlightId, version: nat) {
    && payload.FlightList?
    && exists i :: 0 <= i < |payload.rows| && payload.rows[i].id == f && payload.rows[i].row.version < version
  }

  predicate Reaches(rows: seq<Found>, version: nat) {
    exists i :: 0 <= i < |rows| && rows[i].row.version >= version
  }

  /**
   Operation `i` fills in a list with an old row of `f`: some row of it reaches the version key, if that is
   alive, and the list is neither replaced nor deleted nor expired until state `j`.
   */
  ghost predicate OldListStands(ttl: nat, worlds: seq<World>, actions: seq<Action>, i: nat, j: nat, k: Key,
                                f: FlightId, version: nat)
    requires IsExecution(ttl, worlds, actions) && j < |worlds|
  {
    var ops := Ops(worlds, actions);
    && i < j && ops[i].Fill? && ops[i].key == k && OlderIn(ops[i].payload, f, version)
    && (Fenced(worlds[i].cache.redis, worlds[i].cache.now, k) ==>
          Reaches(ops[i].payload.rows, worlds[i].cache.redis.versions[k].version))
    && (forall m :: i < m < j ==> !WritesPayload(worlds[m].cache, ops[m], k))
    && worlds[j].cache.now < worlds[i].cache.now + ttl
  }

  /** Handler `p` deletes, respectively fences, the list under key `k` as part of its write of flight `f`. */
  ghost predicate DeletesList(worlds: seq<World>, actions: seq<Action>, n: nat, p: ProcId, f: FlightId, k: Key) {
    && (WritesAt(worlds, actions, n, p, f, DropDay) || WritesAt(worlds, actions, n, p, f, DropAnyDay))
    && Command(worlds[n].procs[p]) == Delete(k)
  }

  ghost predicate FencesList(worlds: seq<World>, actions: seq<Action>, n: nat, p: ProcId, f: FlightId, k: Key) {
    && (WritesAt(worlds, actions, n, p, f, RaiseDay) || WritesAt(worlds, actions, n, p, f, RaiseAnyDay))
    && Command(worlds[n].procs[p]) == Raise(k, worlds[n].procs[p].row.version)
  }

  /**
   A fill of a list is accepted exactly if the version key is dead, or still at 0, or some row of the list
   reaches it: a list has only the maximum of its rows' versions to show.
   */
  lemma ListFillAcceptedIff(redis: Redis, now: nat, k: Key, rows: seq<Found>)
    ensures Accepts(redis, now, k, MaxVersion(rows)) <==>
            (Fenced(redis, now, k) ==> redis.versions[k].version == 0 || Reaches(rows, redis.versions[k].version))
  {
    MaxVersionIsMax(rows);
    if Accepts(redis, now, k, MaxVersion(rows)) && Fenced(redis, now, k) && rows != [] {
      var i :| 0 <= i < |rows| && rows[i].row.version == MaxVersion(rows);
      assert rows[i].row.version >= redis.versions[k].version;
    }
  }

  lemma StandsIffInstalled(ttl: nat, worlds: seq<World>, actions: seq<Action>, i: nat, j: nat, k: Key,
                           f: FlightId, version: nat)
    requires IsExecution(ttl, worlds, actions) && j < |worlds| && k.SearchKey?
    requires IsRun(ttl, Caches(worlds), Ops(worlds, actions))
    ensures OldListStands(ttl, worlds, actions, i, j, k, f, version) <==>
            InstalledAt(ttl, Caches(worlds), Ops(worlds, actions), i, j, k)
                && OlderIn(Ops(worlds, actions)[i].payload, f, version)
  {
    if i < j {
      var op := Ops(worlds, actions)[i];
      if op.Fill? && op.key == k && OlderIn(op.payload, f, version) {
        assert op.version == MaxVersion(op.payload.rows);
        assert op.payload.rows[0].row.version >= 0;
        ListFillAcceptedIff(worlds[i].cache.redis, worlds[i].cache.now, k, op.payload.rows);
      }
    }
  }

  /**
   A write of flight `f` deletes a list at action `d` and fences it at action `e`.  From then on the list is
   hit with a row of `f` older than the write if and only if such a list was filled in after the deletion
   and still stands.  A fill stands past a live version key if and only if one of its rows reaches it.
   */
  lemma OldListIsHitIff(ttl: nat, worlds: seq<World>, actions: seq<Action>, p: ProcId, f: FlightId, k: Key,
                        d: nat, e: nat, j: nat)
    requires IsExecution(ttl, worlds, actions) && d < e < j < |worlds| && k.SearchKey?
    requires DeletesList(worlds, actions, d, p, f, k) && FencesList(worlds, actions, e, p, f, k)
    ensures var fence := worlds[e].procs[p].row.version;
            var cache := worlds[j].cache;
            && fence >= worlds[e].procs[p].committed
            && (Hit(cache.redis, cache.now, k) && OlderIn(cache.redis.payloads[k].payload, f, fence) <==>
                exists i :: d < i < j && OldListStands(ttl, worlds, actions, i, j, k, f, fence))
  {
    CacheRuns(ttl, worlds, actions);
    ExecutionIsSound(ttl, worlds, actions, e);
    assert ProcSound(worlds[e].log, worlds[e].procs[p]);
    var fence := worlds[e].procs[p].row.version;
    var states, ops := Caches(worlds), Ops(worlds, actions);
    if HitAt(states, j, k) && OlderIn(states[j].redis.payloads[k].payload, f, fence) {
      var i := HitWasInstalled(ttl, states, ops, d, j, k);
      InstalledIsHit(ttl, states, ops, i, j, j, k);
      StandsIffInstalled(ttl, worlds, actions, i, j, k, f, fence);
    }
    if i: nat :| d < i < j && OldListStands(ttl, worlds, actions, i, j, k, f, fence) {
      StandsIffInstalled(ttl, worlds, actions, i, j, k, f, fence);
      InstalledIsHit(ttl, states, ops, i, j, j, k);
    }
  }

  /** The list that an operation fills in was read in one committed state. */
  lemma FilledListIsSeen(ttl: nat, worlds: seq<World>, actions: seq<Action>, i: nat, k: Key)
    requires IsExecution(ttl, worlds, actions) && i < |actions| && k.SearchKey?
    requires Ops(worlds, actions)[i].Fill? && Ops(worlds, actions)[i].key == k
    ensures Ops(worlds, actions)[i].payload.FlightList?
    ensures ListSeen(worlds[i].log, k.origin, k.destination, k.date, Ops(worlds, actions)[i].payload.rows)
  {
    ExecutionIsSound(ttl, worlds, actions, i);
    assert ProcSound(worlds[i].log, worlds[i].procs[actions[i].proc]);
  }

  /** A list holds each flight once. */
  lemma ListedOnce(log: seq<Db>, k: Key, rows: seq<Found>, i: nat, j: nat)
    requires k.SearchKey? && ListSeen(log, k.origin, k.destination, k.date, rows)
    requires i < |rows| && j < |rows|
    ensures rows[i].id == rows[j].id ==> i == j
  {
    var n, ids :| 0 <= n < |log| && IsCursor(log[n], k.origin, k.destination, k.date, ids)
        && rows == RowsAt(log[n], ids);
    assert rows[i].id == ids[i] && rows[j].id == ids[j];
  }

  /** As long as the version key lives, an old row gets past the fence only on a row of another flight. */
  lemma LateListIsCarried(ttl: nat, worlds: seq<World>, actions: seq<Action>, p: ProcId, f: FlightId, k: Key,
                          e: nat, i: nat, j: nat)
    requires IsExecution(ttl, worlds, actions) && e < i < j < |worlds| && k.SearchKey?
    requires FencesList(worlds, actions, e, p, f, k) && OneLifetime(Caches(worlds), e + 1, i, k)
    requires OldListStands(ttl, worlds, actions, i, j, k, f, worlds[e].procs[p].row.version)
    ensures var rows := Ops(worlds, actions)[i].payload.rows;
            exists r :: 0 <= r < |rows| && rows[r].id != f && rows[r].row.version >= worlds[e].procs[p].row.version
  {
    CacheRuns(ttl, worlds, actions);
    var fence := worlds[e].procs[p].row.version;
    var states, ops := Caches(worlds), Ops(worlds, actions);
    FenceIsSet(ttl, worlds, actions, p, f, k, e, i);
    PayloadsNeverGoBack(ttl, states, ops, e + 1, i, k);
    FilledListIsSeen(ttl, worlds, actions, i, k);
    var rows := ops[i].payload.rows;
    var r :| 0 <= r < |rows| && rows[r].row.version >= states[i].redis.versions[k].version;
    var q :| 0 <= q < |rows| && rows[q].id == f && rows[q].row.version < fence;
    ListedOnce(worlds[i].log, k, rows, q, r);
  }

  lemma FenceIsSet(ttl: nat, worlds: seq<World>, actions: seq<Action>, p: ProcId, f: FlightId, k: Key, e: nat, i: nat)
    requires IsExecution(ttl, worlds, actions) && e < i < |worlds|
    requires FencesList(worlds, actions, e, p, f, k) && OneLifetime(Caches(worlds), e + 1, i, k)
    requires IsRun(ttl, Caches(worlds), Ops(worlds, actions))
    ensures k in worlds[e + 1].cache.redis.versions
    ensures worlds[e + 1].cache.redis.versions[k].version >= worlds[e].procs[p].row.version
    ensures Fenced(worlds[i].cache.redis, worlds[i].cache.now, k)
  {
    var states := Caches(worlds);
    assert Fenced(states[e + 1].redis, states[e + 1].now, k) && Fenced(states[i].redis, states[i].now, k);
    assert states[e + 1] == Do(ttl, states[e], Ops(worlds, actions)[e]);
  }
}
