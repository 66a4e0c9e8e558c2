/** The desired users with the limiter indexes derived from them, and their exact rollback. */
module UserState {
  import opened Wrappers
  import opened Users
  import opened Limiter
  import opened SpeedTracker

  datatype Snapshot = Snapshot(users: seq<UserSpec>, hash: string)

  datatype Transition = Transition(previous: Snapshot, removed: seq<int>)

  /** No number and no UUID twice. */
  predicate Proper(list: seq<UserSpec>) {
    UniqueIds(list) && UniqueUuids(ById(list))
  }

  class Controller {
    const limiter: Limiter
    const speedTracker: SpeedTracker
    var users: seq<UserSpec>
    var hash: string

    /** The indexes follow the list. */
    ghost predicate Valid()
      reads this, limiter, speedTracker, Objects(speedTracker.buckets)
    {
      && speedTracker.limiter == limiter
      && limiter.Valid() && limiter.users == ById(users)
      && speedTracker.Valid()
    }

    constructor (limiter: Limiter, speedTracker: SpeedTracker)
      requires speedTracker.limiter == limiter && limiter.Valid() && limiter.users == map[] && speedTracker.Valid()
      ensures Valid() && users == [] && hash == ""
      ensures this.limiter == limiter && this.speedTracker == speedTracker
    {
      this.limiter, this.speedTracker := limiter, speedTracker;
      users, hash := [], "";
      new;
      ByIdMembers([]);
    }

    ghost function DeviceLimit(uuid: string): Option<int>
      reads this, limiter
    {
      ReadLimit(limiter.uuidDeviceLimit, uuid)
    }

    ghost function Speed(uuid: string): Option<Rate>
      requires Valid()
      reads this, limiter, speedTracker, Objects(speedTracker.buckets)
    {
      speedTracker.Answer(uuid)
    }

    /** Limiter first, buckets second. */
    method UpdateIndexes(list: seq<UserSpec>) returns (removed: seq<int>)
      requires speedTracker.limiter == limiter && Separate(speedTracker.buckets) && speedTracker.Recorded()
      modifies limiter, speedTracker, Objects(speedTracker.buckets)
      ensures limiter.Valid() && limiter.users == ById(list) && speedTracker.Valid()
      ensures forall id :: id in removed <==> id in old(limiter.users) && id !in limiter.users
      ensures Objects(speedTracker.buckets) <= old(Objects(speedTracker.buckets))
    {
      removed := limiter.UpdateUsers(list);
      speedTracker.UpdateBuckets();
    }

    method Install(list: seq<UserSpec>, hash: string) returns (removed: seq<int>)
      requires Valid()
      modifies this, limiter, speedTracker, Objects(speedTracker.buckets)
      ensures Valid() && users == list && this.hash == hash
      ensures forall id :: id in removed <==> id in Ids(old(users)) && id !in Ids(list)
      ensures Objects(speedTracker.buckets) <= old(Objects(speedTracker.buckets))
    {
      ByIdKeys(users);
      ByIdKeys(list);
      removed := UpdateIndexes(list);
      users, this.hash := list, hash;
    }

    method Replace(list: seq<UserSpec>, hash: string) returns (transition: Transition)
      requires Valid()
      modifies this, limiter, speedTracker, Objects(speedTracker.buckets)
      ensures Valid() && users == list && this.hash == hash
      ensures transition.previous == Snapshot(old(users), old(this.hash))
      ensures forall id :: id in transition.removed <==> id in Ids(old(users)) && id !in Ids(list)
      ensures Objects(speedTracker.buckets) <= old(Objects(speedTracker.buckets))
    {
      var previous := Snapshot(users, this.hash);
      var removed := Install(list, hash);
      transition := Transition(previous, removed);
    }

    method Restore(snapshot: Snapshot)
      requires Valid()
      modifies this, limiter, speedTracker, Objects(speedTracker.buckets)
      ensures Valid() && users == snapshot.users && hash == snapshot.hash
    {
      var _ := Install(snapshot.users, snapshot.hash);
    }

    /** On a proper list every answer is that of a search through the list. */
    lemma AnswersNaive(uuid: string)
      requires Valid() && Proper(users)
      ensures DeviceLimit(uuid) == NaiveLimit(users, uuid)
      ensures Speed(uuid) == NaiveSpeed(users, uuid)
    {
      LimitIsNaive(limiter.uuidDeviceLimit, users, uuid);
      speedTracker.AnswerIsNaive(users, uuid);
    }

    lemma AllAnswersNaive()
      requires Valid() && Proper(users)
      ensures forall uuid :: DeviceLimit(uuid) == NaiveLimit(users, uuid)
      ensures forall uuid :: Speed(uuid) == NaiveSpeed(users, uuid)
    {
      forall uuid {
        AnswersNaive(uuid);
      }
    }

    /**
     A change that is rolled back leaves no trace: list, hash and every answer are
     as before, whatever was tried and whichever UUIDs asked for a bucket meanwhile.
     */
    method TryAndRollBack(list: seq<UserSpec>, hash: string, asked: seq<string>)
      requires Valid() && Proper(users)
      modifies this, limiter, speedTracker, Objects(speedTracker.buckets)
      ensures Valid() && users == old(users) && this.hash == old(this.hash)
      ensures forall uuid :: DeviceLimit(uuid) == old(DeviceLimit(uuid))
      ensures forall uuid :: Speed(uuid) == old(Speed(uuid))
    {
      AllAnswersNaive();
      var transition := Replace(list, hash);
      ghost var buckets := Objects(speedTracker.buckets);
      for i := 0 to |asked|
        invariant Valid()
        invariant forall b :: b in Objects(speedTracker.buckets) ==> b in buckets || fresh(b)
      {
        var _ := speedTracker.GetLimiter(asked[i]);
      }
      Restore(transition.previous);
      AllAnswersNaive();
    }
  }

  // ----- two users with one UUID -----

  /** Without unique UUIDs the answer is no longer determined: both indexes are possible. */
  lemma SharedUuidIsAmbiguous()
    ensures var list := [UserSpec(1, "u", 0, 1), UserSpec(2, "u", 0, 2)];
            LimitIndex(map["u" := 1], ById(list)) && LimitIndex(map["u" := 2], ById(list))
  {
    var list := [UserSpec(1, "u", 0, 1), UserSpec(2, "u", 0, 2)];
    ByIdMembers(list);
    assert list[0] in list && list[1] in list;
    assert ById(list)[1] == list[0] && ById(list)[2] == list[1];
    assert LimitOf(ById(list)[1]) == Some(1) && LimitOf(ById(list)[2]) == Some(2);
  }
}
