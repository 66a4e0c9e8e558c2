/** Device limits and speed limits by UUID, and the indexes kept for them. */
module Limiter {
  import opened Wrappers
  import opened Users

  // ----- the plain meaning -----

  predicate UniqueUuids(users: map<int, UserSpec>) {
    forall i, j | i in users && j in users && users[i].uuid == users[j].uuid :: i == j
  }

  datatype Rate = Rate(limit: int, burst: int)

  const MIN_BURST := 64 * 1024

  /** 125000 bytes per second per Mbit/s; one such unit is above the least burst, so that one never shows. */
  function RateOf(speedLimit: int): (r: Rate)
    requires speedLimit > 0
    ensures r.limit == r.burst == 125_000 * speedLimit
  {
    var bytesPerSec := speedLimit * 1_000_000 / 8;
    Rate(bytesPerSec, if bytesPerSec < MIN_BURST then MIN_BURST else bytesPerSec)
  }

  /** The rate of a bucket built on demand has one more case, which never applies. */
  function FreshRate(speedLimit: int): (r: Rate)
    requires speedLimit > 0
    ensures r == RateOf(speedLimit)
  {
    var bytesPerSec := speedLimit * 1_000_000 / 8;
    var burst := if bytesPerSec < MIN_BURST then MIN_BURST else bytesPerSec;
    var cap4s := bytesPerSec * 4;
    Rate(bytesPerSec, if cap4s > MIN_BURST && burst > cap4s then cap4s else burst)
  }

  function LimitOf(u: UserSpec): Option<int> {
    if u.deviceLimit > 0 then Some(u.deviceLimit) else None
  }

  function SpeedOf(u: UserSpec): Option<Rate> {
    if u.speedLimit > 0 then Some(RateOf(u.speedLimit)) else None
  }

  /** Searching the list itself: what the indexes are there to avoid. */
  function FindUuid(list: seq<UserSpec>, uuid: string): Option<UserSpec> {
    if list == [] then None
    else if list[|list| - 1].uuid == uuid then Some(list[|list| - 1])
    else FindUuid(list[..|list| - 1], uuid)
  }

  function NaiveLimit(list: seq<UserSpec>, uuid: string): Option<int> {
    var u := FindUuid(list, uuid);
    if u.Some? then LimitOf(u.value) else None
  }

  function NaiveSpeed(list: seq<UserSpec>, uuid: string): Option<Rate> {
    var u := FindUuid(list, uuid);
    if u.Some? && uuid != "" then SpeedOf(u.value) else None
  }

  lemma {:induction false} FindUuidFinds(list: seq<UserSpec>, uuid: string)
    ensures FindUuid(list, uuid).Some? ==> FindUuid(list, uuid).value in list && FindUuid(list, uuid).value.uuid == uuid
    ensures FindUuid(list, uuid).None? ==> forall u :: u in list ==> u.uuid != uuid
  {
    if list != [] {
      FindUuidFinds(list[..|list| - 1], uuid);
      assert list == list[..|list| - 1] + [list[|list| - 1]];
    }
  }

  /**
   On a list without shared numbers and UUIDs each user has its own positive limits,
   at 125000 bytes per second for each Mbit/s, and a UUID that is not listed has none.
   */
  lemma NaiveMeans(list: seq<UserSpec>, u: UserSpec)
    requires UniqueIds(list) && UniqueUuids(ById(list)) && u in list
    ensures NaiveLimit(list, u.uuid) == if u.deviceLimit > 0 then Some(u.deviceLimit) else None
    ensures NaiveSpeed(list, u.uuid) ==
            if u.uuid != "" && u.speedLimit > 0 then Some(Rate(125_000 * u.speedLimit, 125_000 * u.speedLimit)) else None
  {
    ByIdMembers(list);
    FindUuidFinds(list, u.uuid);
  }

  lemma NaiveUnlisted(list: seq<UserSpec>, uuid: string)
    requires forall u :: u in list ==> u.uuid != uuid
    ensures NaiveLimit(list, uuid) == None && NaiveSpeed(list, uuid) == None
  {
    FindUuidFinds(list, uuid);
  }

  // ----- device limits -----

  /** Exactly the users with a limit are indexed; of several with one UUID, any one. */
  ghost predicate LimitIndex(index: map<string, int>, users: map<int, UserSpec>) {
    && (forall uuid | uuid in index ::
          exists id :: id in users && users[id].uuid == uuid && LimitOf(users[id]) == Some(index[uuid]))
    && (forall id | id in users && users[id].deviceLimit > 0 :: users[id].uuid in index)
  }

  function ReadLimit(index: map<string, int>, uuid: string): Option<int> {
    if uuid in index then Some(index[uuid]) else None
  }

  lemma LimitIsNaive(index: map<string, int>, list: seq<UserSpec>, uuid: string)
    requires UniqueIds(list) && UniqueUuids(ById(list)) && LimitIndex(index, ById(list))
    ensures ReadLimit(index, uuid) == NaiveLimit(list, uuid)
  {
    ByIdMembers(list);
    FindUuidFinds(list, uuid);
    var found := FindUuid(list, uuid);
    if uuid in index {
      var id :| id in ById(list) && ById(list)[id].uuid == uuid && LimitOf(ById(list)[id]) == Some(index[uuid]);
      assert ById(list)[id] in list;
      assert found.Some? && ById(list)[found.value.id] == found.value;
    }
  }

  class Limiter {
    var users: map<int, UserSpec>
    var uuidDeviceLimit: map<string, int>

    ghost predicate Valid()
      reads this
    {
      Keyed(users) && LimitIndex(uuidDeviceLimit, users)
    }

    constructor ()
      ensures Valid() && users == map[]
    {
      users, uuidDeviceLimit := map[], map[];
    }

    /** The removed numbers are reported once each, in no particular order. */
    method UpdateUsers(list: seq<UserSpec>) returns (removed: seq<int>)
      modifies this
      ensures Valid() && users == ById(list)
      ensures forall id :: id in removed <==> id in old(users) && id !in users
      ensures forall i, j :: 0 <= i < j < |removed| ==> removed[i] != removed[j]
    {
      var newUsers := IndexById(list);
      removed := Missing(users, newUsers);
      users := newUsers;
      uuidDeviceLimit := IndexLimits(users);
      ByIdMembers(list);
    }

    method GetDeviceLimitByUUID(uuid: string) returns (limit: int, found: bool)
      ensures (if found then Some(limit) else None) == ReadLimit(uuidDeviceLimit, uuid)
      ensures !found ==> limit == 0
    {
      found := uuid in uuidDeviceLimit;
      limit := if found then uuidDeviceLimit[uuid] else 0;
    }
  }

  method Missing(before: map<int, UserSpec>, now: map<int, UserSpec>) returns (removed: seq<int>)
    ensures forall id :: id in removed <==> id in before && id !in now
    ensures forall i, j :: 0 <= i < j < |removed| ==> removed[i] != removed[j]
  {
    removed := [];
    var todo: set<int> := before.Keys;
    while todo != {}
      invariant todo <= before.Keys
      invariant forall id :: id in removed <==> id in before && id !in todo && id !in now
      invariant forall i, j :: 0 <= i < j < |removed| ==> removed[i] != removed[j]
      decreases |todo|
    {
      ghost var _ := SomeMember(todo);
      var id :| id in todo;
      todo := todo - {id};
      if id !in now {
        removed := removed + [id];
      }
    }
  }

  method IndexLimits(users: map<int, UserSpec>) returns (index: map<string, int>)
    ensures LimitIndex(index, users)
  {
    index := map[];
    var todo: set<int> := users.Keys;
    ghost var done: map<int, UserSpec> := map[];
    while todo != {}
      invariant todo <= users.Keys && done == users - todo
      invariant LimitIndex(index, done)
      decreases |todo|
    {
      ghost var _ := SomeMember(todo);
      var id :| id in todo;
      todo := todo - {id};
      LimitIndexPush(index, done, id, users[id]);
      if users[id].deviceLimit > 0 {
        index := index[users[id].uuid := users[id].deviceLimit];
      }
      done := done[id := users[id]];
    }
    assert done == users;
  }

  lemma LimitIndexPush(index: map<string, int>, done: map<int, UserSpec>, id: int, u: UserSpec)
    requires LimitIndex(index, done) && id !in done
    ensures LimitIndex(if u.deviceLimit > 0 then index[u.uuid := u.deviceLimit] else index, done[id := u])
  {
    var next := if u.deviceLimit > 0 then index[u.uuid := u.deviceLimit] else index;
    var more := done[id := u];
    forall uuid | uuid in next
      ensures exists i :: i in more && more[i].uuid == uuid && LimitOf(more[i]) == Some(next[uuid])
    {
      if u.deviceLimit > 0 && uuid == u.uuid {
        assert more[id] == u;
      } else {
        var i :| i in done && done[i].uuid == uuid && LimitOf(done[i]) == Some(index[uuid]);
        assert more[i] == done[i];
      }
    }
  }
}
