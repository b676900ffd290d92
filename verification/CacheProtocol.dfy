/**
 Readers, writers and the passing of time, interleaved one command at a time, over one database and
 one cache.  Any cache call may fail, and any handler may stop anywhere.
 */
module CacheProtocol {
  import opened FlightDb
  import opened FlightCache

  type ProcId = nat

  /** What a write still has to do after its commit, in the order in which it does it. */
  datatype WriteStage = DropFlight | Reread | DropDay | DropAnyDay | RaiseFlight | RaiseDay | RaiseAnyDay

  datatype Proc =
    | LookUpFlight(flight: FlightId)
    | LoadFlight(flight: FlightId)
    | FillFlight(flight: FlightId, row: Flight)
    | LookUpSearch(origin: nat, destination: nat, date: DateFilter)
    | LoadSearch(origin: nat, destination: nat, date: DateFilter)
    | FillSearch(origin: nat, destination: nat, date: DateFilter, rows: seq<Found>)
      // `committed` is the version of the flight right after the commit, `row` what was read again
    | Writing(flight: FlightId, stage: WriteStage, committed: nat, row: Flight)
    | Done

  /** The committed states of the database, oldest first. */
  type Log = log: seq<Db> | log != [] witness [Db(map[], map[])]

  datatype World = World(cache: State, log: Log, procs: map<ProcId, Proc>)

  datatype Action =
    | Tick(ms: nat)
    | Commit(proc: ProcId, request: Request)
    | Edit(flight: FlightId, row: Flight)
    | Spawn(proc: ProcId, reader: Proc)
      // `ok` is false when the call to the cache or to the database fails
    | Proceed(proc: ProcId, ok: bool, cursor: seq<FlightId>)

  function MaxVersion(rows: seq<Found>): nat {
    if rows == [] then 0
    else
      var last := rows[|rows| - 1].row.version;
      var rest := MaxVersion(rows[..|rows| - 1]);
      if last > rest then last else rest
  }

  /** The version of a list is the least bound of the versions of its rows. */
  lemma {:induction false} MaxVersionIsMax(rows: seq<Found>)
    ensures forall i :: 0 <= i < |rows| ==> rows[i].row.version <= MaxVersion(rows)
    ensures rows != [] ==> exists i :: 0 <= i < |rows| && rows[i].row.version == MaxVersion(rows)
  {
    if rows != [] {
      var n := |rows| - 1;
      MaxVersionIsMax(rows[..n]);
      assert rows == rows[..n] + [rows[n]];
      if MaxVersion(rows) != rows[n].row.version {
        assert rows[..n] != [];
        var i :| 0 <= i < |rows[..n]| && rows[..n][i].row.version == MaxVersion(rows[..n]);
        assert rows[i].row.version == MaxVersion(rows);
      }
    }
  }

  function Last(log: Log): Db {
    log[|log| - 1]
  }

  function Latest(w: World): Db {
    Last(w.log)
  }

  /** The cache command of the next step of a handler, if the call gets through. */
  function Command(p: Proc): Op {
    match p
    case FillFlight(f, row) => Fill(FlightKey(f), row.version, OneFlight(Found(f, row)))
    case FillSearch(o, d, date, rows) => Fill(SearchKey(o, d, date), MaxVersion(rows), FlightList(rows))
    case Writing(f, stage, _, row) =>
      (match stage
       case DropFlight => Delete(FlightKey(f))
       case Reread => Wait(0)
       case DropDay => Delete(SearchKey(row.info.origin, row.info.destination, OnDay(row.info.DepartureDay())))
       case DropAnyDay => Delete(SearchKey(row.info.origin, row.info.destination, AnyDay))
       case RaiseFlight => Raise(FlightKey(f), row.version)
       case RaiseDay => Raise(SearchKey(row.info.origin, row.info.destination, OnDay(row.info.DepartureDay())),
           row.version)
       case RaiseAnyDay => Raise(SearchKey(row.info.origin, row.info.destination, AnyDay), row.version))
    case _ => Wait(0)
  }

  function OpOf(w: World, a: Action): Op {
    match a
    case Tick(ms) => Wait(ms)
    case Proceed(p, ok, _) => if ok && p in w.procs then Command(w.procs[p]) else Wait(0)
    case _ => Wait(0)
  }

  ghost predicate CanAct(w: World, a: Action) {
    match a
    case Tick(_) => true
    case Commit(p, request) => p !in w.procs && WellFormed(request) && Apply(Latest(w), request).1.Ok?
    case Edit(f, row) =>
      if f in Latest(w).flights then exists s :: row == Latest(w).flights[f].(status := s) else NewFlight(row)
    case Spawn(p, reader) => p !in w.procs && (reader.LookUpFlight? || reader.LookUpSearch?)
    case Proceed(p, ok, cursor) =>
      && p in w.procs && !w.procs[p].Done?
      && (w.procs[p].LoadSearch? && ok ==>
            IsCursor(Latest(w), w.procs[p].origin, w.procs[p].destination, w.procs[p].date, cursor))
  }

  function NextStage(stage: WriteStage): WriteStage {
    match stage
    case DropFlight => Reread
    case Reread => DropDay
    case DropDay => DropAnyDay
    case DropAnyDay => RaiseFlight
    case RaiseFlight => RaiseDay
    case _ => RaiseAnyDay
  }

  /** The handler after its next step. */
  function Stepped(cache: State, db: Db, p: Proc, ok: bool, cursor: seq<FlightId>): Proc
    requires p.LoadSearch? && ok ==> forall f :: f in cursor ==> f in db.flights
  {
    match p
    case LookUpFlight(f) => if ok && Hit(cache.redis, cache.now, FlightKey(f)) then Done else LoadFlight(f)
    case LoadFlight(f) => if ok && f in db.flights then FillFlight(f, db.flights[f]) else Done
    case LookUpSearch(o, d, date) =>
      if ok && Hit(cache.redis, cache.now, SearchKey(o, d, date)) then Done else LoadSearch(o, d, date)
    case LoadSearch(o, d, date) => if ok then FillSearch(o, d, date, RowsAt(db, cursor)) else Done
    case Writing(f, stage, committed, row) =>
      if stage == RaiseAnyDay then Done
      else if stage != Reread then Writing(f, NextStage(stage), committed, row)
      else if ok && f in db.flights then Writing(f, DropDay, committed, db.flights[f])
      else Done
    case _ => Done
  }

  function StartWriting(procs: map<ProcId, Proc>, p: ProcId, db: Db, f: FlightId): map<ProcId, Proc> {
    if f in db.flights then procs[p := Writing(f, DropFlight, db.flights[f].version, db.flights[f])] else procs
  }

  ghost function Act(ttl: nat, w: World, a: Action): World
    requires CanAct(w, a)
  {
    var cache := Do(ttl, w.cache, OpOf(w, a));
    match a
    case Tick(_) => w.(cache := cache)
    case Commit(p, request) =>
      var (db, result) := Apply(Latest(w), request);
      World(cache, w.log + [db], StartWriting(w.procs, p, db, result.reservation.flight))
    case Edit(f, row) => World(cache, w.log + [Latest(w).(flights := Latest(w).flights[f := row])], w.procs)
    case Spawn(p, reader) => World(cache, w.log, w.procs[p := reader])
    case Proceed(p, ok, cursor) => World(cache, w.log, w.procs[p := Stepped(w.cache, Latest(w), w.procs[p], ok,
        cursor)])
  }

  /** Nothing holds a step back: time passes, calls fail, and handlers stop, in every world. */
  lemma AnythingMayFail(ttl: nat, w: World, ms: nat, p: ProcId, cursor: seq<FlightId>)
    ensures CanAct(w, Tick(ms)) && Act(ttl, w, Tick(ms)).cache.now == w.cache.now + ms
    ensures p in w.procs && !w.procs[p].Done? ==> CanAct(w, Proceed(p, false, cursor))
    ensures p in w.procs && !w.procs[p].Done? && !w.procs[p].LoadSearch? ==> CanAct(w, Proceed(p, true, cursor))
  {
  }

  /** Every commit and every edit is one more state of the database, and a commit makes its handler a writer. */
  lemma ChangesAreLogged(ttl: nat, w: World, p: ProcId, request: Request, f: FlightId, row: Flight)
    ensures (CanAct(w, Commit(p, request)) ==>
               && Act(ttl, w, Commit(p, request)).log == w.log + [Apply(Latest(w), request).0]
               && var after := Act(ttl, w, Commit(p, request));
                  var g := Apply(Latest(w), request).1.reservation.flight;
                  g in Latest(after).flights ==>
                    p in after.procs
                    && after.procs[p] ==
                         Writing(g, DropFlight, Latest(after).flights[g].version, Latest(after).flights[g]))
    ensures (CanAct(w, Edit(f, row)) ==>
               Act(ttl, w, Edit(f, row)).log == w.log + [Latest(w).(flights := Latest(w).flights[f := row])])
  {
  }

  // ---------------------------------------------------------------- the invariant

  /** The log is a history of one database. */
  ghost predicate Chronicle(log: Log) {
    && (forall i :: 0 <= i < |log| ==> Balanced(log[i]))
    && (forall i, j :: 0 <= i <= j < |log| ==> Follows(log[i], log[j]))
  }

  ghost predicate RowSeen(log: seq<Db>, f: FlightId, row: Flight) {
    exists i :: 0 <= i < |log| && f in log[i].flights && log[i].flights[f] == row
  }

  /** `rows` answers the query in one committed state. */
  ghost predicate ListSeen(log: seq<Db>, origin: nat, destination: nat, date: DateFilter, rows: seq<Found>) {
    exists i, ids :: 0 <= i < |log| && IsCursor(log[i], origin, destination, date, ids) && rows == RowsAt(log[i], ids)
  }

  /** A payload is a row, or a list of rows, as some committed state had it. */
  ghost predicate Faithful(log: seq<Db>, k: Key, e: Entry) {
    match k
    case FlightKey(f) =>
      && e.payload.OneFlight? && e.payload.flight.id == f
      && RowSeen(log, f, e.payload.flight.row) && e.version == e.payload.flight.row.version
    case SearchKey(o, d, date) =>
      && e.payload.FlightList?
      && ListSeen(log, o, d, date, e.payload.rows) && e.version == MaxVersion(e.payload.rows)
  }

  ghost predicate ProcSound(log: seq<Db>, p: Proc) {
    match p
    case FillFlight(f, row) => RowSeen(log, f, row)
    case FillSearch(o, d, date, rows) => ListSeen(log, o, d, date, rows)
    case Writing(f, stage, committed, row) => RowSeen(log, f, row) && committed <= row.version
    case _ => true
  }

  ghost predicate CacheSound(ttl: nat, cache: State, log: Log) {
    && Covered(ttl, cache)
    && (forall k :: k in cache.redis.payloads ==> Faithful(log, k, cache.redis.payloads[k]))
    && (forall f :: FlightKey(f) in cache.redis.versions ==>
          f in Last(log).flights && cache.redis.versions[FlightKey(f)].version <= Last(log).flights[f].version)
  }

  ghost predicate ProcsSound(log: Log, procs: map<ProcId, Proc>) {
    forall p :: p in procs ==> ProcSound(log, procs[p])
  }

  ghost predicate Sound(ttl: nat, w: World) {
    Chronicle(w.log) && CacheSound(ttl, w.cache, w.log) && ProcsSound(w.log, w.procs)
  }

  lemma SeenRowIsOld(log: Log, f: FlightId, row: Flight)
    requires Chronicle(log) && RowSeen(log, f, row)
    ensures f in Last(log).flights && row.version <= Last(log).flights[f].version
  {
    var n :| 0 <= n < |log| && f in log[n].flights && log[n].flights[f] == row;
    assert Follows(log[n], Last(log));
  }

  /** A version stands for one number of free seats, whenever it was read. */
  lemma VersionFixesSeats(log: Log, f: FlightId, row: Flight)
    requires Chronicle(log) && RowSeen(log, f, row)
    ensures forall i :: 0 <= i < |log| && f in log[i].flights && log[i].flights[f].version == row.version ==>
              log[i].flights[f].available == row.available
  {
    var n :| 0 <= n < |log| && f in log[n].flights && log[n].flights[f] == row;
    forall i | 0 <= i < |log| && f in log[i].flights && log[i].flights[f].version == row.version
      ensures log[i].flights[f].available == row.available
    {
      assert if i <= n then Follows(log[i], log[n]) else Follows(log[n], log[i]);
    }
  }

  lemma LogGrows(log: Log, db: Db)
    requires Chronicle(log) && Balanced(db) && Follows(Last(log), db)
    ensures Chronicle(log + [db])
    ensures forall f, row :: RowSeen(log, f, row) ==> RowSeen(log + [db], f, row)
    ensures forall o, d, date, rows :: ListSeen(log, o, d, date, rows) ==> ListSeen(log + [db], o, d, date, rows)
  {
    var log' := log + [db];
    forall i, j | 0 <= i <= j < |log'|
      ensures Follows(log'[i], log'[j])
    {
      if i < |log| {
        assert Follows(log[i], log[|log| - 1]);
      }
    }
    forall f, row | RowSeen(log, f, row)
      ensures RowSeen(log', f, row)
    {
      var n :| 0 <= n < |log| && f in log[n].flights && log[n].flights[f] == row;
      assert log'[n] == log[n];
    }
    forall o, d, date, rows | ListSeen(log, o, d, date, rows)
      ensures ListSeen(log', o, d, date, rows)
    {
      var n, ids :| 0 <= n < |log| && IsCursor(log[n], o, d, date, ids) && rows == RowsAt(log[n], ids);
      assert log'[n] == log[n];
    }
  }

  /** A command that writes rows some committed state had keeps the cache sound. */
  lemma CommandKeepsSound(ttl: nat, cache: State, log: Log, op: Op)
    requires Chronicle(log) && CacheSound(ttl, cache, log)
    requires op.Fill? ==> Faithful(log, op.key, Entry(op.payload, op.version, cache.now + ttl))
    requires op.Raise? && op.key.FlightKey? ==>
      op.key.flight in Last(log).flights && op.version <= Last(log).flights[op.key.flight].version
    ensures CacheSound(ttl, Do(ttl, cache, op), log)
  {
    DoKeepsCovered(ttl, cache, op);
    if op.Fill? && op.key.FlightKey? {
      SeenRowIsOld(log, op.key.flight, op.payload.flight.row);
    }
  }

  lemma ProcCommandIsSound(ttl: nat, cache: State, log: Log, p: Proc)
    requires Chronicle(log) && CacheSound(ttl, cache, log) && ProcSound(log, p)
    ensures CacheSound(ttl, Do(ttl, cache, Command(p)), log)
  {
    hide CacheSound, Chronicle, Do, RowSeen, ListSeen;
    if p.Writing? {
      SeenRowIsOld(log, p.flight, p.row);
    }
    CommandKeepsSound(ttl, cache, log, Command(p));
  }

  lemma LatestRowIsSeen(log: Log, f: FlightId)
    requires f in Last(log).flights
    ensures RowSeen(log, f, Last(log).flights[f])
  {
    assert log[|log| - 1] == Last(log);
  }

  lemma WriterStepIsSound(cache: State, log: Log, p: Proc, ok: bool)
    requires p.Writing? && ProcSound(log, p)
    requires p.flight in Last(log).flights && p.row.version <= Last(log).flights[p.flight].version
    ensures ProcSound(log, Stepped(cache, Last(log), p, ok, []))
  {
    LatestRowIsSeen(log, p.flight);
  }

  lemma StepIsSound(cache: State, log: Log, p: Proc, ok: bool, cursor: seq<FlightId>)
    requires Chronicle(log) && ProcSound(log, p)
    requires p.LoadSearch? && ok ==> IsCursor(Last(log), p.origin, p.destination, p.date, cursor)
    ensures ProcSound(log, Stepped(cache, Last(log), p, ok, cursor))
  {
    if p.Writing? {
      SeenRowIsOld(log, p.flight, p.row);
      WriterStepIsSound(cache, log, p, ok);
    } else if p.LoadSearch? && ok {
      assert IsCursor(log[|log| - 1], p.origin, p.destination, p.date, cursor);
    } else if p.LoadFlight? && p.flight in Last(log).flights {
      LatestRowIsSeen(log, p.flight);
    }
  }

  lemma GrownLogKeepsProcs(log: Log, db: Db, p: Proc)
    requires Chronicle(log) && Balanced(db) && Follows(Last(log), db) && ProcSound(log, p)
    ensures ProcSound(log + [db], p)
  {
    LogGrows(log, db);
  }

  lemma GrownLogKeepsFaithful(log: Log, db: Db, k: Key, e: Entry)
    requires Chronicle(log) && Balanced(db) && Follows(Last(log), db) && Faithful(log, k, e)
    ensures Faithful(log + [db], k, e)
  {
    LogGrows(log, db);
  }

  lemma GrownLogKeepsCache(ttl: nat, cache: State, log: Log, db: Db)
    requires Chronicle(log) && Balanced(db) && Follows(Last(log), db) && CacheSound(ttl, cache, log)
    ensures CacheSound(ttl, cache, log + [db])
  {
    assert Last(log + [db]) == db;
    forall k | k in cache.redis.payloads
      ensures Faithful(log + [db], k, cache.redis.payloads[k])
    {
      GrownLogKeepsFaithful(log, db, k, cache.redis.payloads[k]);
    }
  }

  /** The database moves on: by a commit, or by an operator. */
  lemma GrownLogKeepsSound(ttl: nat, w: World, db: Db)
    requires Sound(ttl, w) && Balanced(db) && Follows(Latest(w), db)
    ensures Chronicle(w.log + [db]) && CacheSound(ttl, Do(ttl, w.cache, Wait(0)), w.log + [db])
    ensures ProcsSound(w.log + [db], w.procs)
  {
    LogGrows(w.log, db);
    GrownLogKeepsCache(ttl, w.cache, w.log, db);
    CommandKeepsSound(ttl, w.cache, w.log + [db], Wait(0));
    forall p | p in w.procs
      ensures ProcSound(w.log + [db], w.procs[p])
    {
      GrownLogKeepsProcs(w.log, db, w.procs[p]);
    }
  }

  lemma CommitFollows(w: World, request: Request)
    requires Balanced(Latest(w)) && WellFormed(request)
    ensures Balanced(Apply(Latest(w), request).0) && Follows(Latest(w), Apply(Latest(w), request).0)
  {
    ApplyFollows(Latest(w), request);
    ApplyKeepsBalanced(Latest(w), request);
  }

  lemma LatestIsBalanced(w: World)
    requires Chronicle(w.log)
    ensures Balanced(Latest(w))
  {
  }

  lemma CommitKeepsSound(ttl: nat, w: World, p: ProcId, request: Request)
    requires Sound(ttl, w) && CanAct(w, Commit(p, request))
    ensures Sound(ttl, Act(ttl, w, Commit(p, request)))
  {
    hide Chronicle, CacheSound, ProcsSound, Balanced, Follows, Do, StartWriting, Apply;
    var db := Apply(Latest(w), request).0;
    LatestIsBalanced(w);
    CommitFollows(w, request);
    GrownLogKeepsSound(ttl, w, db);
    WriterStartsSound(w.log + [db], w.procs, p, Apply(Latest(w), request).1.reservation.flight);
  }

  lemma WriterStartsSound(log: Log, procs: map<ProcId, Proc>, p: ProcId, f: FlightId)
    requires ProcsSound(log, procs)
    ensures ProcsSound(log, StartWriting(procs, p, Last(log), f))
  {
    if f in Last(log).flights {
      LatestRowIsSeen(log, f);
    }
  }

  lemma EditKeepsSound(ttl: nat, w: World, f: FlightId, row: Flight)
    requires Sound(ttl, w) && CanAct(w, Edit(f, row))
    ensures Sound(ttl, Act(ttl, w, Edit(f, row)))
  {
    OperatorKeepsBalanced(Latest(w), f, row);
    GrownLogKeepsSound(ttl, w, Latest(w).(flights := Latest(w).flights[f := row]));
  }

  lemma ProceedKeepsSound(ttl: nat, w: World, p: ProcId, ok: bool, cursor: seq<FlightId>)
    requires Sound(ttl, w) && CanAct(w, Proceed(p, ok, cursor))
    ensures Sound(ttl, Act(ttl, w, Proceed(p, ok, cursor)))
  {
    assert ProcSound(w.log, w.procs[p]);
    StepIsSound(w.cache, w.log, w.procs[p], ok, cursor);
    if ok {
      ProcCommandIsSound(ttl, w.cache, w.log, w.procs[p]);
    } else {
      CommandKeepsSound(ttl, w.cache, w.log, Wait(0));
    }
  }

  lemma ActKeepsSound(ttl: nat, w: World, a: Action)
    requires Sound(ttl, w) && CanAct(w, a)
    ensures Sound(ttl, Act(ttl, w, a))
  {
    match a
    case Tick(ms) => CommandKeepsSound(ttl, w.cache, w.log, Wait(ms));
    case Commit(p, request) => CommitKeepsSound(ttl, w, p, request);
    case Edit(f, row) => EditKeepsSound(ttl, w, f, row);
    case Spawn(p, reader) => CommandKeepsSound(ttl, w.cache, w.log, Wait(0));
    case Proceed(p, ok, cursor) => ProceedKeepsSound(ttl, w, p, ok, cursor);
  }

  ghost predicate IsExecution(ttl: nat, worlds: seq<World>, actions: seq<Action>) {
    && |worlds| == |actions| + 1
    && |worlds[0].log| == 1 && Balanced(worlds[0].log[0])
    && worlds[0].procs == map[] && worlds[0].cache.redis == Redis(map[], map[])
    && (forall i :: 0 <= i < |actions| ==>
          CanAct(worlds[i], actions[i]) && worlds[i + 1] == Act(ttl, worlds[i], actions[i]))
  }

  lemma {:induction false} ExecutionIsSound(ttl: nat, worlds: seq<World>, actions: seq<Action>, n: nat)
    requires IsExecution(ttl, worlds, actions) && n < |worlds|
    ensures Sound(ttl, worlds[n])
  {
    if n > 0 {
      ExecutionIsSound(ttl, worlds, actions, n - 1);
      ActKeepsSound(ttl, worlds[n - 1], actions[n - 1]);
    }
  }

  // ---------------------------------------------------------------- what a hit means

  /**
   In every reachable state, a flight that is hit carries exactly the seats committed at its version,
   and its version key outlives it and lies between its version and that of the database.
   */
  lemma FlightHitIsCommitted(ttl: nat, worlds: seq<World>, actions: seq<Action>, n: nat, f: FlightId)
    requires IsExecution(ttl, worlds, actions) && n < |worlds|
    requires Hit(worlds[n].cache.redis, worlds[n].cache.now, FlightKey(f))
    ensures var w := worlds[n];
            var redis := w.cache.redis;
            var hit := redis.payloads[FlightKey(f)];
            && Fenced(redis, w.cache.now, FlightKey(f))
            && hit.expiresAt <= redis.versions[FlightKey(f)].expiresAt
            && f in Latest(w).flights
            && hit.version <= redis.versions[FlightKey(f)].version <= Latest(w).flights[f].version
            && hit.payload.OneFlight? && hit.payload.flight.id == f
            && RowSeen(w.log, f, hit.payload.flight.row)
            && (forall i :: 0 <= i < |w.log| && f in w.log[i].flights && w.log[i].flights[f].version == hit.version ==>
                  w.log[i].flights[f].available == hit.payload.flight.row.available)
  {
    ExecutionIsSound(ttl, worlds, actions, n);
    var w := worlds[n];
    assert Faithful(w.log, FlightKey(f), w.cache.redis.payloads[FlightKey(f)]);
    SeenRowIsOld(w.log, f, w.cache.redis.payloads[FlightKey(f)].payload.flight.row);
    VersionFixesSeats(w.log, f, w.cache.redis.payloads[FlightKey(f)].payload.flight.row);
  }

  /** A list that is hit answers its query in one committed state, never in a mixture of several. */
  lemma SearchHitIsSnapshot(ttl: nat, worlds: seq<World>, actions: seq<Action>, n: nat,
                            origin: nat, destination: nat, date: DateFilter)
    requires IsExecution(ttl, worlds, actions) && n < |worlds|
    requires Hit(worlds[n].cache.redis, worlds[n].cache.now, SearchKey(origin, destination, date))
    ensures var k := SearchKey(origin, destination, date);
            var w := worlds[n];
            var hit := w.cache.redis.payloads[k];
            && hit.payload.FlightList?
            && ListSeen(w.log, origin, destination, date, hit.payload.rows)
            && Fenced(w.cache.redis, w.cache.now, k)
            && MaxVersion(hit.payload.rows) == hit.version <= w.cache.redis.versions[k].version
  {
    ExecutionIsSound(ttl, worlds, actions, n);
    var k := SearchKey(origin, destination, date);
    assert Faithful(worlds[n].log, k, worlds[n].cache.redis.payloads[k]);
  }

  /** A fill that carries the current version of its flight is never refused. */
  lemma CurrentFillAccepted(ttl: nat, worlds: seq<World>, actions: seq<Action>, n: nat, f: FlightId)
    requires IsExecution(ttl, worlds, actions) && n < |worlds|
    requires f in Latest(worlds[n]).flights
    ensures Accepts(worlds[n].cache.redis, worlds[n].cache.now, FlightKey(f), Latest(worlds[n]).flights[f].version)
  {
    ExecutionIsSound(ttl, worlds, actions, n);
  }

  // ---------------------------------------------------------------- writes and later hits

  ghost function Caches(worlds: seq<World>): (states: seq<State>)
    ensures |states| == |worlds| && forall i :: 0 <= i < |worlds| ==> states[i] == worlds[i].cache
  {
    seq(|worlds|, i requires 0 <= i < |worlds| => worlds[i].cache)
  }

  ghost function Ops(worlds: seq<World>, actions: seq<Action>): (ops: seq<Op>)
    requires |worlds| == |actions| + 1
    ensures |ops| == |actions| && forall i :: 0 <= i < |actions| ==> ops[i] == OpOf(worlds[i], actions[i])
  {
    seq(|actions|, i requires 0 <= i < |actions| => OpOf(worlds[i], actions[i]))
  }

  /** What the cache goes through in an execution is one of the runs of module FlightCache. */
  lemma CacheRuns(ttl: nat, worlds: seq<World>, actions: seq<Action>)
    requires IsExecution(ttl, worlds, actions)
    ensures IsRun(ttl, Caches(worlds), Ops(worlds, actions))
  {
    ExecutionIsSound(ttl, worlds, actions, 0);
    forall i | 0 <= i < |actions|
      ensures Caches(worlds)[i + 1] == Do(ttl, Caches(worlds)[i], Ops(worlds, actions)[i])
    {
      assert worlds[i + 1] == Act(ttl, worlds[i], actions[i]);
    }
  }

  /** Readers see versions of a flight or of a list in order, while its version key lives. */
  lemma HitsInOrder(ttl: nat, worlds: seq<World>, actions: seq<Action>, i: nat, j: nat, k: Key)
    requires IsExecution(ttl, worlds, actions) && OneLifetime(Caches(worlds), i, j, k)
    requires HitAt(Caches(worlds), i, k) && HitAt(Caches(worlds), j, k)
    ensures worlds[i].cache.redis.payloads[k].version <= worlds[j].cache.redis.payloads[k].version
  {
    CacheRuns(ttl, worlds, actions);
    PayloadsNeverGoBack(ttl, Caches(worlds), Ops(worlds, actions), i, j, k);
  }

  /** Handler `p` performs the given stage of its write at action `n`, and its cache call succeeds. */
  ghost predicate WritesAt(worlds: seq<World>, actions: seq<Action>, n: nat, p: ProcId, f: FlightId,
                           stage: WriteStage) {
    && n < |actions| && n < |worlds| && actions[n].Proceed? && actions[n].proc == p && actions[n].ok
    && p in worlds[n].procs && worlds[n].procs[p].Writing?
    && worlds[n].procs[p].flight == f && worlds[n].procs[p].stage == stage
  }

  /** A fill of flight `f` older than `version` got through at action `i`, and is still there at `j`. */
  ghost predicate OlderFillStands(ttl: nat, worlds: seq<World>, actions: seq<Action>, i: nat, j: nat, f: FlightId,
                                  version: nat)
    requires IsExecution(ttl, worlds, actions) && j < |worlds| && i < j
  {
    && IsRun(ttl, Caches(worlds), Ops(worlds, actions))
    && InstalledAt(ttl, Caches(worlds), Ops(worlds, actions), i, j, FlightKey(f))
    && Ops(worlds, actions)[i].version < version
  }

  /**
   A write invalidates at action `d` and fences at action `e`.  From then on, for as long as the
   version key lives, a hit shows a state older than what the write read back, if and only if an older
   fill slipped in between the two and still stands.  What was read back includes the write.
   */
  lemma WriteIsSeenUnlessOvertaken(ttl: nat, worlds: seq<World>, actions: seq<Action>,
                                   p: ProcId, f: FlightId, d: nat, e: nat, j: nat)
    requires IsExecution(ttl, worlds, actions) && d < e < j < |worlds|
    requires WritesAt(worlds, actions, d, p, f, DropFlight) && WritesAt(worlds, actions, e, p, f, RaiseFlight)
    requires OneLifetime(Caches(worlds), e + 1, j, FlightKey(f))
    ensures var fence := worlds[e].procs[p].row.version;
            var cache := worlds[j].cache;
            && fence >= worlds[e].procs[p].committed
            && (Hit(cache.redis, cache.now, FlightKey(f)) && cache.redis.payloads[FlightKey(f)].version < fence <==>
                exists i :: d < i < e && OlderFillStands(ttl, worlds, actions, i, j, f, fence))
  {
    CacheRuns(ttl, worlds, actions);
    ExecutionIsSound(ttl, worlds, actions, e);
    assert ProcSound(worlds[e].log, worlds[e].procs[p]);
    var fence := worlds[e].procs[p].row.version;
    var states, ops := Caches(worlds), Ops(worlds, actions);
    StaleHitIff(ttl, states, ops, d, e, j, FlightKey(f), fence);
    if i: nat :| d < i < e && InstalledAt(ttl, states, ops, i, j, FlightKey(f)) && ops[i].version < fence {
      assert OlderFillStands(ttl, worlds, actions, i, j, f, fence);
    }
  }
}
