/** Executions of module CacheProtocol, and one in which a flight is shown as it was before a write. */
module StaleHits {
  import opened FlightDb
  import opened FlightCache
  import opened CacheProtocol

  ghost predicate Reachable(ttl: nat, w: World) {
    exists worlds, actions :: IsExecution(ttl, worlds, actions) && worlds[|actions|] == w
  }

  lemma ReachableStep(ttl: nat, w: World, a: Action)
    requires Reachable(ttl, w) && CanAct(w, a)
    ensures Reachable(ttl, Act(ttl, w, a))
  {
    hide Act, CanAct, Balanced;
    var worlds, actions :| IsExecution(ttl, worlds, actions) && worlds[|actions|] == w;
    var worlds', actions' := worlds + [Act(ttl, w, a)], actions + [a];
    assert IsExecution(ttl, worlds', actions');
    assert worlds'[|actions'|] == Act(ttl, w, a);
  }

  function Start(f: FlightId, row: Flight): World {
    World(State(0, Redis(map[], map[])), [Db(map[f := row], map[])], map[])
  }

  lemma StartIsReachable(ttl: nat, f: FlightId, row: Flight)
    requires NewFlight(row)
    ensures Reachable(ttl, Start(f, row))
  {
    var worlds, actions := [Start(f, row)], [];
    assert Balanced(Last(worlds[0].log)) by {
      OperatorKeepsBalanced(Db(map[], map[]), f, row);
      assert map[][f := row] == map[f := row];
    }
    assert IsExecution(ttl, worlds, actions);
    assert worlds[|actions|] == Start(f, row);
  }

  /** Process `p` takes its next step, and its calls succeed. */
  ghost function Next(ttl: nat, w: World, p: ProcId): World
    requires CanAct(w, Proceed(p, true, []))
  {
    Act(ttl, w, Proceed(p, true, []))
  }

  /** A reader misses the flight and loads its row. */
  lemma ReaderLoads(ttl: nat, f: FlightId, row: Flight, reader: ProcId) returns (w: World)
    requires NewFlight(row)
    ensures Reachable(ttl, w)
    ensures w == Start(f, row).(procs := map[reader := FillFlight(f, row)])
  {
    StartIsReachable(ttl, f, row);
    var w0 := Start(f, row);
    ReachableStep(ttl, w0, Spawn(reader, LookUpFlight(f)));
    var w1 := Act(ttl, w0, Spawn(reader, LookUpFlight(f)));
    ReachableStep(ttl, w1, Proceed(reader, true, []));
    var w2 := Next(ttl, w1, reader);
    ReachableStep(ttl, w2, Proceed(reader, true, []));
    w := Next(ttl, w2, reader);
  }

  /** Then a writer takes a seat, and deletes the payload. */
  lemma WriterDeletes(ttl: nat, f: FlightId, row: Flight, reader: ProcId, writer: ProcId, b: BookingId)
    returns (w: World)
    requires NewFlight(row) && row.status == Scheduled && reader != writer
    ensures Reachable(ttl, w) && w.cache == Start(f, row).cache
    ensures f in Latest(w).flights && Latest(w).flights[f].version == row.version + 1
    ensures writer in w.procs && w.procs[writer] == Writing(f, Reread, row.version + 1, Latest(w).flights[f])
    ensures reader in w.procs && w.procs[reader] == FillFlight(f, row)
  {
    var loaded := ReaderLoads(ttl, f, row, reader);
    var take := Commit(writer, ReserveSeats(f, b, 1));
    ReachableStep(ttl, loaded, take);
    var committed := Act(ttl, loaded, take);
    ReachableStep(ttl, committed, Proceed(writer, true, []));
    w := Next(ttl, committed, writer);
  }

  /** Then the reader fills in the row that it loaded. */
  lemma ReaderFillsLate(ttl: nat, f: FlightId, row: Flight, reader: ProcId, writer: ProcId, b: BookingId)
    returns (w: World)
    requires NewFlight(row) && row.status == Scheduled && reader != writer
    ensures Reachable(ttl, w) && w.cache.now == 0
    ensures f in Latest(w).flights && Latest(w).flights[f].version == row.version + 1
    ensures writer in w.procs && w.procs[writer] == Writing(f, Reread, row.version + 1, Latest(w).flights[f])
    ensures FlightKey(f) in w.cache.redis.payloads
    ensures w.cache.redis.payloads[FlightKey(f)] == Entry(OneFlight(Found(f, row)), row.version, ttl)
    ensures w.cache.redis.versions == map[FlightKey(f) := Fence(row.version, ttl)]
  {
    var deleted := WriterDeletes(ttl, f, row, reader, writer, b);
    ReachableStep(ttl, deleted, Proceed(reader, true, []));
    w := Next(ttl, deleted, reader);
  }

  /** A writer between its deletion and its fence takes a step: the payload of its flight stays. */
  lemma WriterGoesOn(ttl: nat, before: World, f: FlightId, writer: ProcId, stage: WriteStage, row: Flight)
    returns (w: World)
    requires Reachable(ttl, before) && writer in before.procs
    requires f in Latest(before).flights && Latest(before).flights[f] == row
    requires stage == Reread || stage == DropDay || stage == DropAnyDay
    requires before.procs[writer] == Writing(f, stage, row.version, row)
    requires FlightKey(f) in before.cache.redis.payloads
    requires Accepts(before.cache.redis, before.cache.now, FlightKey(f), row.version)
    ensures Reachable(ttl, w) && w.log == before.log && w.cache.now == before.cache.now
    ensures writer in w.procs && w.procs[writer] == Writing(f, NextStage(stage), row.version, row)
    ensures FlightKey(f) in w.cache.redis.payloads
    ensures w.cache.redis.payloads[FlightKey(f)] == before.cache.redis.payloads[FlightKey(f)]
    ensures Accepts(w.cache.redis, w.cache.now, FlightKey(f), row.version)
  {
    hide Reachable;
    ReachableStep(ttl, before, Proceed(writer, true, []));
    w := Next(ttl, before, writer);
  }

  /** A writer that has deleted its payload goes on to the fence; the payload that is there stays. */
  lemma WriterFences(ttl: nat, before: World, f: FlightId, writer: ProcId, row: Flight) returns (w: World)
    requires Reachable(ttl, before) && writer in before.procs
    requires f in Latest(before).flights && Latest(before).flights[f] == row
    requires before.procs[writer] == Writing(f, Reread, row.version, row)
    requires FlightKey(f) in before.cache.redis.payloads
    requires Accepts(before.cache.redis, before.cache.now, FlightKey(f), row.version)
    ensures Reachable(ttl, w) && w.log == before.log && w.cache.now == before.cache.now
    ensures writer in w.procs && w.procs[writer] == Writing(f, RaiseDay, row.version, row)
    ensures FlightKey(f) in w.cache.redis.payloads
    ensures w.cache.redis.payloads[FlightKey(f)] == before.cache.redis.payloads[FlightKey(f)]
    ensures FlightKey(f) in w.cache.redis.versions
    ensures w.cache.redis.versions[FlightKey(f)] == Fence(row.version, before.cache.now + ttl)
  {
    hide Reachable;
    var reread := WriterGoesOn(ttl, before, f, writer, Reread, row);
    var droppedDay := WriterGoesOn(ttl, reread, f, writer, DropDay, row);
    var droppedAny := WriterGoesOn(ttl, droppedDay, f, writer, DropAnyDay, row);
    ReachableStep(ttl, droppedAny, Proceed(writer, true, []));
    w := Next(ttl, droppedAny, writer);
  }

  /**
   A write does not keep older payloads out.  For every new flight on sale: a reader loads its row, a
   writer takes a seat and deletes the payload, the reader fills in what it loaded, and the writer sets
   the fence.  From then on the flight is hit with the seat still free.
   */
  lemma StaleFlightIsHit(ttl: nat, f: FlightId, row: Flight, reader: ProcId, writer: ProcId, b: BookingId)
    returns (w: World)
    requires ttl > 0 && NewFlight(row) && row.status == Scheduled && reader != writer
    ensures Reachable(ttl, w) && Hit(w.cache.redis, w.cache.now, FlightKey(f))
    ensures f in Latest(w).flights && Fenced(w.cache.redis, w.cache.now, FlightKey(f))
    ensures w.cache.redis.versions[FlightKey(f)].version == Latest(w).flights[f].version
    ensures w.cache.redis.payloads[FlightKey(f)].version < Latest(w).flights[f].version
    ensures w.cache.redis.payloads[FlightKey(f)].payload == OneFlight(Found(f, row))
  {
    var filled := ReaderFillsLate(ttl, f, row, reader, writer, b);
    w := WriterFences(ttl, filled, f, writer, Latest(filled).flights[f]);
  }
}
