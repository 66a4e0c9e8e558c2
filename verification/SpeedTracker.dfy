/** The token buckets, one object per speed-limited user, shared by all its connections. */
module SpeedTracker {
  import opened Wrappers
  import opened Users
  import opened Limiter

  class RateLimiter {
    var limit: int
    var burst: int

    constructor (r: Rate)
      ensures Value() == r
    {
      limit, burst := r.limit, r.burst;
    }

    function Value(): Rate
      reads this
    {
      Rate(limit, burst)
    }

    method SetLimit(limit: int)
      modifies this`limit
      ensures this.limit == limit
    {
      this.limit := limit;
    }

    method SetBurst(burst: int)
      modifies this`burst
      ensures this.burst == burst
    {
      this.burst := burst;
    }
  }

  function Objects(buckets: map<int, RateLimiter>): (objects: set<RateLimiter>)
    ensures forall id :: id in buckets ==> buckets[id] in objects
  {
    set id | id in buckets :: buckets[id]
  }

  /** No two users share a bucket. */
  predicate Separate(buckets: map<int, RateLimiter>) {
    forall i, j | i in buckets && j in buckets && i != j :: buckets[i] != buckets[j]
  }

  /** The non-empty UUIDs of all users, each naming one of its users. */
  predicate UuidIndex(uuidMap: map<string, int>, users: map<int, UserSpec>) {
    && (forall uuid | uuid in uuidMap :: uuid != "" && uuidMap[uuid] in users && users[uuidMap[uuid]].uuid == uuid)
    && (forall id | id in users && users[id].uuid != "" :: users[id].uuid in uuidMap)
  }

  /** Every bucket is that of a limited user and has its rate. */
  predicate Rated(buckets: map<int, RateLimiter>, users: map<int, UserSpec>)
    reads Objects(buckets)
  {
    forall id | id in buckets :: id in users && SpeedOf(users[id]) == Some(buckets[id].Value())
  }

  function LimitedIn(users: map<int, UserSpec>): set<int> {
    set id | id in users && users[id].speedLimit > 0
  }

  /** The same for the users already seen. */
  predicate RatedAmong(buckets: map<int, RateLimiter>, seen: map<int, UserSpec>)
    reads Objects(buckets)
  {
    forall id | id in buckets && id in seen :: SpeedOf(seen[id]) == Some(buckets[id].Value())
  }

  /** What refreshing the seen users leaves: the same objects, without those of unlimited users. */
  predicate Kept(now: map<int, RateLimiter>, before: map<int, RateLimiter>, seen: map<int, UserSpec>) {
    && (forall id | id in now :: id in before && now[id] == before[id])
    && (forall id | id in before :: id in now <==> (id in seen ==> seen[id].speedLimit > 0))
  }

  lemma KeptPush(now: map<int, RateLimiter>, before: map<int, RateLimiter>, seen: map<int, UserSpec>, user: UserSpec)
    requires Kept(now, before, seen) && Separate(before) && user.id !in seen
    ensures Separate(now)
    ensures Kept(if user.speedLimit > 0 then now else now - {user.id}, before, seen[user.id := user])
  {
  }

  function Pruned(now: map<int, RateLimiter>, users: map<int, UserSpec>): map<int, RateLimiter> {
    map id | id in now && id in users :: now[id]
  }

  /** After all users are refreshed and the buckets of removed users are gone. */
  lemma KeptAll(now: map<int, RateLimiter>, before: map<int, RateLimiter>, users: map<int, UserSpec>)
    requires Kept(now, before, users) && Separate(before)
    ensures var kept := Pruned(now, users);
            && (forall id :: id in kept <==> id in before && id in users && users[id].speedLimit > 0)
            && Separate(kept) && Objects(kept) <= Objects(before)
            && forall id :: id in kept ==> kept[id] == before[id]
  {
  }

  lemma PrunedRated(now: map<int, RateLimiter>, users: map<int, UserSpec>)
    requires RatedAmong(now, users)
    ensures Rated(Pruned(now, users), users)
  {
  }

  lemma SpeedIsNaive(uuidMap: map<string, int>, list: seq<UserSpec>, uuid: string)
    requires UniqueIds(list) && UniqueUuids(ById(list)) && UuidIndex(uuidMap, ById(list))
    ensures NaiveSpeed(list, uuid) == if uuid in uuidMap then SpeedOf(ById(list)[uuidMap[uuid]]) else None
  {
    ByIdMembers(list);
    FindUuidFinds(list, uuid);
    var found := FindUuid(list, uuid);
    if uuid in uuidMap {
      assert ById(list)[uuidMap[uuid]] in list;
      assert found.Some? && ById(list)[found.value.id] == found.value;
    }
  }

  // ----- who has a bucket, in terms of the calls -----

  /** A lookup that found a user, and whether that user was limited; a new user list, with the limited ones in it. */
  datatype Call =
    | Asked(id: int, isLimited: bool)
    | Updated(limited: set<int>)

  /** Asked for while limited, at that moment, and limited in every list since. */
  predicate HeldSince(calls: seq<Call>, id: int, k: nat) {
    && k < |calls| && calls[k] == Asked(id, true)
    && forall i :: k < i < |calls| && calls[i].Updated? ==> id in calls[i].limited
  }

  ghost predicate Held(calls: seq<Call>, id: int) {
    exists k: nat :: HeldSince(calls, id, k)
  }

  lemma HeldPush(calls: seq<Call>, call: Call)
    ensures forall id :: Held(calls + [call], id) <==>
              call == Asked(id, true) || (Held(calls, id) && (call.Updated? ==> id in call.limited))
  {
    var longer := calls + [call];
    forall id
      ensures Held(longer, id) <==> call == Asked(id, true) || (Held(calls, id) && (call.Updated? ==> id in call.limited))
    {
      if call == Asked(id, true) {
        assert HeldSince(longer, id, |calls|);
      }
      if k: nat :| HeldSince(calls, id, k) && (call.Updated? ==> id in call.limited) {
        assert HeldSince(longer, id, k);
      }
      if k: nat :| HeldSince(longer, id, k) && k < |calls| {
        assert forall i :: 0 <= i < |calls| ==> longer[i] == calls[i];
        assert longer[|calls|] == call;
        assert HeldSince(calls, id, k);
      }
    }
  }

  class SpeedTracker {
    const limiter: Limiter
    var buckets: map<int, RateLimiter>
    var uuidMap: map<string, int>
    var hasLimits: bool

    ghost var calls: seq<Call>

    constructor (limiter: Limiter)
      ensures this.limiter == limiter && buckets == map[] && uuidMap == map[] && !hasLimits && calls == []
    {
      this.limiter := limiter;
      buckets, uuidMap, hasLimits := map[], map[], false;
      calls := [];
    }

    ghost predicate Recorded()
      reads this`buckets, this`calls
    {
      forall id :: id in buckets <==> Held(calls, id)
    }

    /** In step with the limiter. */
    ghost predicate InStep()
      reads this`buckets, this`uuidMap, this`hasLimits, limiter, Objects(buckets)
    {
      && Separate(buckets)
      && UuidIndex(uuidMap, limiter.users)
      && Rated(buckets, limiter.users)
      && (hasLimits <==> buckets != map[])
    }

    ghost predicate Valid()
      reads this, limiter, Objects(buckets)
    {
      InStep() && Recorded()
    }

    /** Update the bucket of one user, if there is one. */
    method Refresh(user: UserSpec)
      modifies this`buckets, if user.id in buckets then {buckets[user.id]} else {}
      ensures buckets == if user.speedLimit > 0 then old(buckets) else old(buckets) - {user.id}
      ensures user.id in buckets ==> SpeedOf(user) == Some(buckets[user.id].Value())
    {
      if user.id in buckets {
        if user.speedLimit > 0 {
          var bytesPerSec := user.speedLimit * 1_000_000 / 8;
          var burst := bytesPerSec;
          if burst < 64 * 1024 {
            burst := 64 * 1024;
          }
          buckets[user.id].SetLimit(bytesPerSec);
          buckets[user.id].SetBurst(burst);
        } else {
          buckets := buckets - {user.id};
        }
      } else {
        assert buckets - {user.id} == buckets;
      }
    }

    /**
     A bucket stays exactly when its user is still there and limited; it is the
     same object, so connections that hold it follow the new rate.
     */
    method UpdateBuckets()
      requires Keyed(limiter.users) && Separate(buckets) && Recorded()
      modifies this, Objects(buckets)
      ensures Valid()
      ensures calls == old(calls) + [Updated(LimitedIn(limiter.users))]
      ensures forall id :: id in buckets <==>
                           id in old(buckets) && id in limiter.users && limiter.users[id].speedLimit > 0
      ensures forall id :: id in buckets ==> buckets[id] == old(buckets)[id]
      ensures Objects(buckets) <= old(Objects(buckets))
    {
      Resync();
      ghost var call := Updated(LimitedIn(limiter.users));
      HeldPush(calls, call);
      calls := calls + [call];
    }

    method Resync()
      requires Keyed(limiter.users) && Separate(buckets)
      modifies this`buckets, this`uuidMap, this`hasLimits, Objects(buckets)
      ensures InStep()
      ensures forall id :: id in buckets <==>
                           id in old(buckets) && id in limiter.users && limiter.users[id].speedLimit > 0
      ensures forall id :: id in buckets ==> buckets[id] == old(buckets)[id]
      ensures Objects(buckets) <= old(Objects(buckets))
    {
      uuidMap := SyncBuckets();
      hasLimits := |buckets| > 0;
    }

    method SyncBuckets() returns (newUuidMap: map<string, int>)
      requires Keyed(limiter.users) && Separate(buckets)
      modifies this`buckets, Objects(buckets)
      ensures UuidIndex(newUuidMap, limiter.users) && Separate(buckets) && Rated(buckets, limiter.users)
      ensures forall id :: id in buckets <==>
                           id in old(buckets) && id in limiter.users && limiter.users[id].speedLimit > 0
      ensures forall id :: id in buckets ==> buckets[id] == old(buckets)[id]
      ensures Objects(buckets) <= old(Objects(buckets))
    {
      newUuidMap := RefreshAll(limiter.users);
      KeptAll(buckets, old(buckets), limiter.users);
      PrunedRated(buckets, limiter.users);
      buckets := Pruned(buckets, limiter.users);
    }

    method RefreshAll(users: map<int, UserSpec>) returns (newUuidMap: map<string, int>)
      requires Keyed(users) && Separate(buckets)
      modifies this`buckets, Objects(buckets)
      ensures UuidIndex(newUuidMap, users)
      ensures Kept(buckets, old(buckets), users)
      ensures RatedAmong(buckets, users)
    {
      newUuidMap := map[];
      var todo: set<int> := users.Keys;
      ghost var done: map<int, UserSpec> := map[];
      while todo != {}
        invariant todo <= users.Keys && done == users - todo
        invariant UuidIndex(newUuidMap, done)
        invariant Kept(buckets, old(buckets), done)
        invariant RatedAmong(buckets, done)
        decreases |todo|
      {
        ghost var _ := SomeMember(todo);
        var id :| id in todo;
        UuidIndexPush(newUuidMap, done, users[id]);
        KeptPush(buckets, old(buckets), done, users[id]);
        if users[id].uuid != "" {
          newUuidMap := newUuidMap[users[id].uuid := id];
        }
        RefreshOne(users[id], done);
        todo, done := todo - {id}, done[id := users[id]];
      }
      assert done == users;
    }

    method RefreshOne(user: UserSpec, ghost done: map<int, UserSpec>)
      requires Separate(buckets) && user.id !in done && RatedAmong(buckets, done)
      modifies this`buckets, if user.id in buckets then {buckets[user.id]} else {}
      ensures buckets == if user.speedLimit > 0 then old(buckets) else old(buckets) - {user.id}
      ensures RatedAmong(buckets, done[user.id := user])
    {
      Refresh(user);
    }

    /** What a connection of this UUID is throttled to. */
    ghost function Answer(uuid: string): Option<Rate>
      reads this`buckets, this`uuidMap, limiter, Objects(buckets)
    {
      if uuid !in uuidMap then None
      else if uuidMap[uuid] in buckets then Some(buckets[uuidMap[uuid]].Value())
      else if uuidMap[uuid] in limiter.users then SpeedOf(limiter.users[uuidMap[uuid]])
      else None
    }

    /** The answer is the same before and after the bucket is built, for every UUID. */
    method GetLimiter(uuid: string) returns (lim: RateLimiter?)
      requires Valid()
      modifies this`buckets, this`hasLimits, this`calls
      ensures Valid()
      ensures old(Answer(uuid)) == if lim == null then None else Some(lim.Value())
      ensures forall other :: Answer(other) == old(Answer(other))
      ensures forall id :: id in old(buckets) ==> id in buckets && buckets[id] == old(buckets)[id]
      ensures forall b :: b in Objects(buckets) ==> b in old(Objects(buckets)) || fresh(b)
      ensures lim != null ==> uuid in uuidMap && uuidMap[uuid] in buckets && buckets[uuidMap[uuid]] == lim
      ensures calls == if uuid in uuidMap then old(calls) + [Asked(uuidMap[uuid], lim != null)] else old(calls)
    {
      lim := FindLimiter(uuid);
      if uuid in uuidMap {
        ghost var call := Asked(uuidMap[uuid], lim != null);
        HeldPush(calls, call);
        calls := calls + [call];
      }
    }

    method FindLimiter(uuid: string) returns (lim: RateLimiter?)
      requires InStep()
      modifies this`buckets, this`hasLimits
      ensures InStep()
      ensures old(Answer(uuid)) == if lim == null then None else Some(lim.Value())
      ensures forall other :: Answer(other) == old(Answer(other))
      ensures forall id :: id in old(buckets) ==> id in buckets && buckets[id] == old(buckets)[id]
      ensures forall b :: b in Objects(buckets) ==> b in old(Objects(buckets)) || fresh(b)
      ensures lim != null ==> uuid in uuidMap && uuidMap[uuid] in buckets && buckets[uuidMap[uuid]] == lim
      ensures buckets.Keys == old(buckets).Keys + if lim != null then {uuidMap[uuid]} else {}
    {
      if uuid !in uuidMap {
        return null;
      }
      var uid := uuidMap[uuid];
      if uid in buckets {
        return buckets[uid];
      }
      if uid !in limiter.users || limiter.users[uid].speedLimit <= 0 {
        return null;
      }
      lim := new RateLimiter(FreshRate(limiter.users[uid].speedLimit));
      buckets := buckets[uid := lim];
      hasLimits := true;
    }

    method HasLimits() returns (r: bool)
      ensures r == hasLimits
    {
      r := hasLimits;
    }

    ghost predicate AnyLimited()
      reads this, limiter
    {
      exists id :: id in limiter.users && limiter.users[id].speedLimit > 0
    }

    /**
     HasLimits is true exactly if some UUID was asked for while its user was limited,
     and that user has been limited in every list since. So it is true only if some
     user is limited, and false about limited users nobody has asked for.
     */
    lemma HasLimitsTells()
      requires Valid()
      ensures hasLimits <==> exists id :: Held(calls, id)
      ensures hasLimits ==> AnyLimited()
      ensures (hasLimits <==> AnyLimited()) <==> (AnyLimited() ==> exists id :: Held(calls, id))
    {
      if hasLimits {
        assert buckets.Keys != {};
        var id := SomeMember(buckets.Keys);
        assert id in limiter.users && SpeedOf(limiter.users[id]).Some?;
        assert Held(calls, id);
      }
      if id :| Held(calls, id) {
        assert id in buckets;
      }
    }

    /** In step with the limiter, every answer is the naive one, whether or not a bucket exists. */
    lemma AnswerIsNaive(list: seq<UserSpec>, uuid: string)
      requires Valid() && limiter.users == ById(list) && UniqueIds(list) && UniqueUuids(ById(list))
      ensures Answer(uuid) == NaiveSpeed(list, uuid)
    {
      SpeedIsNaive(uuidMap, list, uuid);
    }
  }

  lemma UuidIndexPush(uuidMap: map<string, int>, done: map<int, UserSpec>, user: UserSpec)
    requires UuidIndex(uuidMap, done) && user.id !in done
    ensures UuidIndex(if user.uuid != "" then uuidMap[user.uuid := user.id] else uuidMap, done[user.id := user])
  {
  }

  /** It does miss them: a limited user that has not connected yet. */
  method LimitNotAskedFor() returns (t: SpeedTracker)
    ensures fresh(t) && t.Valid() && t.AnyLimited() && !t.hasLimits
  {
    var user := UserSpec(1, "u", 10, 0);
    var l := new Limiter();
    var _ := l.UpdateUsers([user]);
    t := new SpeedTracker(l);
    t.UpdateBuckets();
    ByIdMembers([user]);
    assert [user][0] == user && user in [user];
    assert 1 in Ids([user]);
  }
}
