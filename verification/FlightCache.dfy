/**
 The Redis cache of the flight service: payload keys, version keys, and the two scripts that write
 them.  A key is live until its time to live has run out.  An entry remembers the version it was
 installed with; Redis itself keeps that number only in the version key.
 */
module FlightCache {
  import opened FlightDb

  datatype Key = FlightKey(flight: FlightId) | SearchKey(origin: nat, destination: nat, date: DateFilter)

  datatype Payload = OneFlight(flight: Found) | FlightList(rows: seq<Found>)

  datatype Entry = Entry(payload: Payload, version: nat, expiresAt: nat)

  datatype Fence = Fence(version: nat, expiresAt: nat)

  datatype Redis = Redis(payloads: map<Key, Entry>, versions: map<Key, Fence>)

  predicate Hit(r: Redis, now: nat, k: Key) {
    k in r.payloads && now < r.payloads[k].expiresAt
  }

  predicate Fenced(r: Redis, now: nat, k: Key) {
    k in r.versions && now < r.versions[k].expiresAt
  }

  /** The test at the head of both scripts. */
  predicate Accepts(r: Redis, now: nat, k: Key, version: nat) {
    !Fenced(r, now, k) || version >= r.versions[k].version
  }

  function SetIfNewer(r: Redis, now: nat, ttl: nat, k: Key, version: nat, payload: Payload): Redis {
    if Accepts(r, now, k, version)
    then Redis(r.payloads[k := Entry(payload, version, now + ttl)], r.versions[k := Fence(version, now + ttl)])
    else r
  }

  function SetVersionIfNewer(r: Redis, now: nat, ttl: nat, k: Key, version: nat): Redis {
    if Accepts(r, now, k, version) then r.(versions := r.versions[k := Fence(version, now + ttl)]) else r
  }

  function Del(r: Redis, k: Key): Redis {
    r.(payloads := r.payloads - {k})
  }

  class Cache {
    var payloads: map<Key, Entry>
    var versions: map<Key, Fence>
    const ttl: nat

    ghost function Contents(): Redis
      reads this
    {
      Redis(payloads, versions)
    }

    constructor (ttl: nat)
      requires ttl > 0
      ensures this.ttl == ttl && Contents() == Redis(map[], map[])
    {
      this.ttl := ttl;
      payloads, versions := map[], map[];
    }

    method Get(now: nat, k: Key) returns (hit: bool, payload: Payload)
      ensures hit == Hit(Contents(), now, k)
      ensures hit ==> payload == Contents().payloads[k].payload
    {
      hit, payload := false, FlightList([]);
      if k in payloads && now < payloads[k].expiresAt {
        hit, payload := true, payloads[k].payload;
      }
    }

    method SetPayloadIfNewer(now: nat, k: Key, version: nat, payload: Payload) returns (written: bool)
      modifies this
      ensures Contents() == SetIfNewer(old(Contents()), now, ttl, k, version, payload)
      ensures written == Accepts(old(Contents()), now, k, version)
    {
      if k !in versions || versions[k].expiresAt <= now || version >= versions[k].version {
        payloads := payloads[k := Entry(payload, version, now + ttl)];
        versions := versions[k := Fence(version, now + ttl)];
        return true;
      }
      return false;
    }

    method SetVersion(now: nat, k: Key, version: nat) returns (written: bool)
      modifies this
      ensures Contents() == SetVersionIfNewer(old(Contents()), now, ttl, k, version)
      ensures written == Accepts(old(Contents()), now, k, version)
    {
      if k !in versions || versions[k].expiresAt <= now || version >= versions[k].version {
        versions := versions[k := Fence(version, now + ttl)];
        return true;
      }
      return false;
    }

    method Invalidate(k: Key)
      modifies this
      ensures Contents() == Del(old(Contents()), k)
    {
      payloads := payloads - {k};
    }

    /** Neither the list of the day nor the list of any day can be hit any more; nothing else changes. */
    method InvalidateSearch(origin: nat, destination: nat, day: nat)
      modifies this
      ensures forall now: nat :: !Hit(Contents(), now, SearchKey(origin, destination, OnDay(day)))
      ensures forall now: nat :: !Hit(Contents(), now, SearchKey(origin, destination, AnyDay))
      ensures forall k |
                k != SearchKey(origin, destination, OnDay(day)) && k != SearchKey(origin, destination, AnyDay) ::
                (k in payloads <==> k in old(payloads)) && (k in payloads ==> payloads[k] == old(payloads)[k])
      ensures versions == old(versions)
      ensures Contents() == Del(Del(old(Contents()), SearchKey(origin, destination, OnDay(day))),
                                SearchKey(origin, destination, AnyDay))
    {
      Invalidate(SearchKey(origin, destination, OnDay(day)));
      Invalidate(SearchKey(origin, destination, AnyDay));
    }
  }

  // ---------------------------------------------------------------- any traffic at all

  /** One atomic command or script, or the passing of time. */
  datatype Op =
    | Wait(ms: nat)
    | Delete(key: Key)
    | Fill(key: Key, version: nat, payload: Payload)
    | Raise(key: Key, version: nat)

  datatype State = State(now: nat, redis: Redis)

  function Do(ttl: nat, s: State, op: Op): State {
    match op
    case Wait(ms) => s.(now := s.now + ms)
    case Delete(k) => s.(redis := Del(s.redis, k))
    case Fill(k, version, payload) => s.(redis := SetIfNewer(s.redis, s.now, ttl, k, version, payload))
    case Raise(k, version) => s.(redis := SetVersionIfNewer(s.redis, s.now, ttl, k, version))
  }

  /** A payload that can be hit is covered by a version key that outlives it and is no older. */
  ghost predicate Covered(ttl: nat, s: State) {
    && (forall k :: k in s.redis.payloads ==> s.redis.payloads[k].expiresAt <= s.now + ttl)
    && (forall k :: Hit(s.redis, s.now, k) ==>
          && Fenced(s.redis, s.now, k)
          && s.redis.payloads[k].expiresAt <= s.redis.versions[k].expiresAt
          && s.redis.payloads[k].version <= s.redis.versions[k].version)
  }

  lemma DoKeepsCovered(ttl: nat, s: State, op: Op)
    requires Covered(ttl, s)
    ensures Covered(ttl, Do(ttl, s, op))
  {
    var s' := Do(ttl, s, op);
    forall k | Hit(s'.redis, s'.now, k)
      ensures Fenced(s'.redis, s'.now, k)
      ensures s'.redis.payloads[k].expiresAt <= s'.redis.versions[k].expiresAt
      ensures s'.redis.payloads[k].version <= s'.redis.versions[k].version
    {
      assert Hit(s.redis, s.now, k) || (op.Fill? && op.key == k);
    }
  }

  /** Once a time to live has passed with nothing filled in, nothing is hit. */
  lemma EverythingExpires(ttl: nat, s: State, k: Key)
    requires Covered(ttl, s)
    ensures var later := Do(ttl, s, Wait(ttl));
            later.now == s.now + ttl && later.redis == s.redis && !Hit(later.redis, later.now, k)
  {
  }

  ghost predicate IsRun(ttl: nat, states: seq<State>, ops: seq<Op>) {
    && |states| == |ops| + 1
    && Covered(ttl, states[0])
    && forall i :: 0 <= i < |ops| ==> states[i + 1] == Do(ttl, states[i], ops[i])
  }

  lemma {:induction false} RunIsCovered(ttl: nat, states: seq<State>, ops: seq<Op>, n: nat)
    requires IsRun(ttl, states, ops) && n < |states|
    ensures Covered(ttl, states[n])
  {
    if n > 0 {
      RunIsCovered(ttl, states, ops, n - 1);
      DoKeepsCovered(ttl, states[n - 1], ops[n - 1]);
    }
  }

  ghost predicate HitAt(states: seq<State>, n: nat, k: Key) {
    n < |states| && Hit(states[n].redis, states[n].now, k)
  }

  /** The version key of `k` does not expire between the two states. */
  ghost predicate OneLifetime(states: seq<State>, i: nat, j: nat, k: Key) {
    i <= j < |states| && forall n :: i <= n <= j ==> Fenced(states[n].redis, states[n].now, k)
  }

  /** Within one lifetime of the version key it never goes back, and neither do the payloads. */
  lemma {:induction false} PayloadsNeverGoBack(ttl: nat, states: seq<State>, ops: seq<Op>, i: nat, j: nat, k: Key)
    requires IsRun(ttl, states, ops) && OneLifetime(states, i, j, k)
    ensures states[i].redis.versions[k].version <= states[j].redis.versions[k].version
    ensures HitAt(states, i, k) && HitAt(states, j, k) ==>
              states[i].redis.payloads[k].version <= states[j].redis.payloads[k].version
  {
    if i < j {
      assert Fenced(states[j].redis, states[j].now, k) && Fenced(states[j - 1].redis, states[j - 1].now, k);
      PayloadsNeverGoBack(ttl, states, ops, i, j - 1, k);
      RunIsCovered(ttl, states, ops, i);
      assert states[j] == Do(ttl, states[j - 1], ops[j - 1]);
    }
  }

  /** Operation `i` installed the payload that is hit at state `j`. */
  ghost predicate InstalledAt(ttl: nat, states: seq<State>, ops: seq<Op>, i: nat, j: nat, k: Key)
    requires IsRun(ttl, states, ops) && j < |states|
  {
    && i < j && ops[i].Fill? && ops[i].key == k
    && Accepts(states[i].redis, states[i].now, k, ops[i].version)
    && (forall m :: i < m < j ==> !WritesPayload(states[m], ops[m], k))
    && states[j].now < states[i].now + ttl
  }

  predicate WritesPayload(s: State, op: Op, k: Key) {
    || op == Delete(k)
    || (op.Fill? && op.key == k && Accepts(s.redis, s.now, k, op.version))
  }

  /** What was installed, and not overwritten since, is what is hit. */
  lemma {:induction false} InstalledIsHit(ttl: nat, states: seq<State>, ops: seq<Op>, i: nat, n: nat, j: nat, k: Key)
    requires IsRun(ttl, states, ops) && i < n <= j < |states| && InstalledAt(ttl, states, ops, i, j, k)
    ensures k in states[n].redis.payloads
    ensures states[n].redis.payloads[k] == Entry(ops[i].payload, ops[i].version, states[i].now + ttl)
  {
    assert states[n] == Do(ttl, states[n - 1], ops[n - 1]);
    if i < n - 1 {
      InstalledIsHit(ttl, states, ops, i, n - 1, j, k);
      assert !WritesPayload(states[n - 1], ops[n - 1], k);
    }
  }

  lemma {:induction false} ClockAdvances(ttl: nat, states: seq<State>, ops: seq<Op>, i: nat, j: nat)
    requires IsRun(ttl, states, ops) && i <= j < |states|
    ensures states[i].now <= states[j].now
  {
    if i < j {
      ClockAdvances(ttl, states, ops, i, j - 1);
      assert states[j] == Do(ttl, states[j - 1], ops[j - 1]);
    }
  }

  /** After a deletion, whatever is hit was installed by exactly one later operation. */
  lemma {:induction false} HitWasInstalled(ttl: nat, states: seq<State>, ops: seq<Op>, d: nat, j: nat, k: Key)
    returns (i: nat)
    requires IsRun(ttl, states, ops) && d < j < |states|
    requires ops[d] == Delete(k) && HitAt(states, j, k)
    ensures d < i && InstalledAt(ttl, states, ops, i, j, k)
  {
    assert states[j] == Do(ttl, states[j - 1], ops[j - 1]);
    if WritesPayload(states[j - 1], ops[j - 1], k) {
      i := j - 1;
    } else {
      assert d < j - 1;
      i := HitWasInstalled(ttl, states, ops, d, j - 1, k);
      InstalledIsHit(ttl, states, ops, i, j - 1, j - 1, k);
    }
  }

  /**
   Invalidate, then fence.  As long as the version key lives, a payload older than the fence is hit
   exactly if an older fill was accepted between the deletion and the fence and still stands.
   */
  lemma StaleHitIff(ttl: nat, states: seq<State>, ops: seq<Op>, d: nat, e: nat, j: nat, k: Key, version: nat)
    requires IsRun(ttl, states, ops) && d < e < j < |states|
    requires ops[d] == Delete(k) && ops[e] == Raise(k, version) && OneLifetime(states, e + 1, j, k)
    ensures HitAt(states, j, k) && states[j].redis.payloads[k].version < version <==>
            exists i :: d < i < e && InstalledAt(ttl, states, ops, i, j, k) && ops[i].version < version
  {
    if HitAt(states, j, k) && states[j].redis.payloads[k].version < version {
      var i := HitWasInstalled(ttl, states, ops, d, j, k);
      InstalledIsHit(ttl, states, ops, i, j, j, k);
      if e < i {
        assert Fenced(states[i].redis, states[i].now, k);
        assert states[e + 1] == Do(ttl, states[e], ops[e]);
        PayloadsNeverGoBack(ttl, states, ops, e + 1, i, k);
        assert false;
      }
      assert d < i < e;
    }
    if i: nat :| d < i < e && InstalledAt(ttl, states, ops, i, j, k) && ops[i].version < version {
      InstalledIsHit(ttl, states, ops, i, j, j, k);
    }
  }

  /** So a write that no older fill slips past is seen by every later hit. */
  lemma FenceHolds(ttl: nat, states: seq<State>, ops: seq<Op>, d: nat, e: nat, j: nat, k: Key, version: nat)
    requires IsRun(ttl, states, ops) && d < e < j < |states|
    requires ops[d] == Delete(k) && ops[e] == Raise(k, version) && OneLifetime(states, e + 1, j, k)
    requires forall i :: d < i < e && ops[i].Fill? && ops[i].key == k ==> ops[i].version >= version
    ensures HitAt(states, j, k) ==> states[j].redis.payloads[k].version >= version
  {
    StaleHitIff(ttl, states, ops, d, e, j, k, version);
  }
}
