/** The service's user events: desired state first, kernel second, rollback if the kernel refuses. */
module Service {
  import opened Wrappers
  import opened Users
  import UserDelta
  import UserState
  import SpeedTracker
  import SingBox
  import opened UserSync

  class Service {
    const users: UserState.Controller
    const kernel: SingBox.SingBox
    var hasConfig: bool

    function View(): Node
      reads this, users, kernel
    {
      Node(users.users, kernel.View(), hasConfig)
    }

    ghost predicate Valid()
      reads this, users, kernel, users.limiter, users.speedTracker, SpeedTracker.Objects(users.speedTracker.buckets)
    {
      users.Valid() && kernel.Valid()
    }

    constructor (users: UserState.Controller, kernel: SingBox.SingBox)
      requires users.Valid() && kernel.Valid()
      ensures Valid() && this.users == users && this.kernel == kernel && !hasConfig
    {
      this.users, this.kernel, hasConfig := users, kernel, false;
    }

    method ReplaceUserState(list: seq<UserSpec>, hash: string) returns (previous: UserState.Snapshot)
      requires Valid()
      modifies users, users.limiter, users.speedTracker, SpeedTracker.Objects(users.speedTracker.buckets)
      ensures Valid() && users.users == list && users.hash == hash
      ensures previous == UserState.Snapshot(old(users.users), old(users.hash))
      ensures SpeedTracker.Objects(users.speedTracker.buckets) <= old(SpeedTracker.Objects(users.speedTracker.buckets))
    {
      var transition := users.Replace(list, hash);
      previous := transition.previous;
    }

    /** The end of every operation: the desired state goes back if the kernel has refused. */
    method RestoreIf(failed: bool, previous: UserState.Snapshot)
      requires Valid()
      modifies users, users.limiter, users.speedTracker, SpeedTracker.Objects(users.speedTracker.buckets)
      ensures Valid()
      ensures users.users == if failed then previous.users else old(users.users)
      ensures users.hash == if failed then previous.hash else old(users.hash)
    {
      if failed {
        users.Restore(previous);
      }
    }

    method UpdateKernel(list: seq<UserSpec>, updateOk: bool, startOk: bool) returns (failed: bool)
      requires Valid()
      modifies kernel
      ensures Valid()
      ensures var r := UpdateOrStart(old(kernel.View()), list, updateOk, startOk);
              kernel.View() == r.kernel && failed == r.failed
    {
      if !kernel.running {
        failed := kernel.Start(list, startOk);
        return;
      }
      var added, removed;
      added, removed, failed := kernel.UpdateUsers(list, updateOk);
      if failed {
        failed := kernel.Start(list, startOk);
      }
    }

    method ApplyUserUpdate(list: seq<UserSpec>, hash: string, updateOk: bool, startOk: bool)
      requires Valid()
      modifies kernel, users, users.limiter, users.speedTracker, SpeedTracker.Objects(users.speedTracker.buckets)
      ensures Valid() && View() == FullSpec(old(View()), list, updateOk, startOk)
      ensures users.hash == if FullUndone(old(View()), list, updateOk, startOk) then old(users.hash) else hash
    {
      var previous := ReplaceUserState(list, hash);
      if !kernel.running && (|list| == 0 || !hasConfig) {
        return;
      }
      var failed := UpdateKernel(list, updateOk, startOk);
      RestoreIf(failed, previous);
    }

    method RemoveStale(oldUsers: seq<UserSpec>, u: UserSpec, reloadOk: bool)
      requires Valid()
      modifies kernel
      ensures Valid() && kernel.running == old(kernel.running)
      ensures var stale := Replaced(oldUsers, u);
              kernel.View() == if stale.Some? then SingBox.RemoveSpec(old(kernel.View()), [stale.value], reloadOk).kernel
                               else old(kernel.View())
    {
      var stale := FirstReplaced(oldUsers, u);
      if stale.Some? {
        var _, _ := kernel.RemoveUsers([stale.value], reloadOk);
      }
    }

    /** Remove the old kernel user of every number that is about to get another UUID. */
    method RemoveReplaced(oldUsers: seq<UserSpec>, delta: seq<UserSpec>, preFails: set<int>)
      requires Valid() && kernel.running
      modifies kernel
      ensures Valid()
      ensures kernel.View() == PreRemove(old(kernel.View()), oldUsers, delta, preFails)
      ensures kernel.running
    {
      for i := 0 to |delta|
        invariant Valid() && kernel.running
        invariant kernel.View() == PreRemove(old(kernel.View()), oldUsers, delta[..i], preFails)
      {
        assert delta[..i + 1][..i] == delta[..i];
        RemoveStale(oldUsers, delta[i], i !in preFails);
      }
      assert delta[..|delta|] == delta;
    }

    method AddToKernel(delta: seq<UserSpec>, merged: seq<UserSpec>, addOk: bool, updateOk: bool) returns (failed: bool)
      requires Valid()
      modifies kernel
      ensures Valid()
      ensures var r := AddOrUpdate(old(kernel.View()), delta, merged, addOk, updateOk);
              kernel.View() == r.kernel && failed == r.failed
    {
      var added, removed;
      added, failed := kernel.AddUsers(delta, addOk);
      if failed {
        added, removed, failed := kernel.UpdateUsers(merged, updateOk);
      }
    }

    method RemoveFromKernel(delta: seq<UserSpec>, filtered: seq<UserSpec>, removeOk: bool, updateOk: bool) returns (failed: bool)
      requires Valid()
      modifies kernel
      ensures Valid()
      ensures var r := RemoveOrUpdate(old(kernel.View()), delta, filtered, removeOk, updateOk);
              kernel.View() == r.kernel && failed == r.failed
    {
      var added, removed;
      removed, failed := kernel.RemoveUsers(delta, removeOk);
      if failed {
        added, removed, failed := kernel.UpdateUsers(filtered, updateOk);
      }
    }

    method StartKernel(list: seq<UserSpec>, startOk: bool) returns (failed: bool)
      requires Valid()
      modifies kernel
      ensures Valid()
      ensures var r := SingBox.StartSpec(old(kernel.View()), list, startOk);
              kernel.View() == r.kernel && failed == r.failed
    {
      failed := kernel.Start(list, startOk);
    }

    method ReplaceAndAdd(delta: seq<UserSpec>, merged: seq<UserSpec>, hash: string, addOk: bool, updateOk: bool)
      requires Valid()
      modifies kernel, users, users.limiter, users.speedTracker, SpeedTracker.Objects(users.speedTracker.buckets)
      ensures Valid()
      ensures var r := AddOrUpdate(old(kernel.View()), delta, merged, addOk, updateOk);
              && View() == Settle(old(View()), merged, r)
              && users.hash == if r.failed then old(users.hash) else hash
    {
      var previous := ReplaceUserState(merged, hash);
      var failed := AddToKernel(delta, merged, addOk, updateOk);
      RestoreIf(failed, previous);
    }

    method ReplaceAndStart(merged: seq<UserSpec>, hash: string, startOk: bool)
      requires Valid()
      modifies kernel, users, users.limiter, users.speedTracker, SpeedTracker.Objects(users.speedTracker.buckets)
      ensures Valid()
      ensures var r := SingBox.StartSpec(old(kernel.View()), merged, startOk);
              && View() == (if hasConfig then Settle(old(View()), merged, r) else old(View()).(desired := merged))
              && users.hash == if hasConfig && r.failed then old(users.hash) else hash
    {
      var previous := ReplaceUserState(merged, hash);
      if !hasConfig {
        return;
      }
      var failed := StartKernel(merged, startOk);
      RestoreIf(failed, previous);
    }

    method ApplyAddDelta(delta: seq<UserSpec>, hash: string, preFails: set<int>, addOk: bool, updateOk: bool, startOk: bool)
      requires Valid()
      modifies kernel, users, users.limiter, users.speedTracker, SpeedTracker.Objects(users.speedTracker.buckets)
      ensures Valid() && View() == AddDeltaSpec(old(View()), delta, preFails, addOk, updateOk, startOk)
      ensures users.hash == if AddDeltaUndone(old(View()), delta, preFails, addOk, updateOk, startOk) then old(users.hash) else hash
    {
      if |delta| == 0 {
        return;
      }
      var merged := UserDelta.Merge(users.users, Some(delta));
      if kernel.running {
        RemoveReplaced(users.users, delta, preFails);
        ReplaceAndAdd(delta, merged, hash, addOk, updateOk);
      } else {
        ReplaceAndStart(merged, hash, startOk);
      }
    }

    method ReplaceAndRemove(delta: seq<UserSpec>, filtered: seq<UserSpec>, hash: string, removeOk: bool, updateOk: bool)
      requires Valid()
      modifies kernel, users, users.limiter, users.speedTracker, SpeedTracker.Objects(users.speedTracker.buckets)
      ensures Valid()
      ensures var r := RemoveOrUpdate(old(kernel.View()), delta, filtered, removeOk, updateOk);
              && View() == (if old(kernel.running) then Settle(old(View()), filtered, r) else old(View()).(desired := filtered))
              && users.hash == if old(kernel.running) && r.failed then old(users.hash) else hash
    {
      var previous := ReplaceUserState(filtered, hash);
      if !kernel.running {
        return;
      }
      var failed := RemoveFromKernel(delta, filtered, removeOk, updateOk);
      RestoreIf(failed, previous);
    }

    method ApplyRemoveDelta(delta: seq<UserSpec>, hash: string, removeOk: bool, updateOk: bool)
      requires Valid()
      modifies kernel, users, users.limiter, users.speedTracker, SpeedTracker.Objects(users.speedTracker.buckets)
      ensures Valid() && View() == RemoveDeltaSpec(old(View()), delta, removeOk, updateOk)
      ensures users.hash == if RemoveDeltaUndone(old(View()), delta, removeOk, updateOk) then old(users.hash) else hash
    {
      if |delta| == 0 {
        return;
      }
      var filtered := UserDelta.Subtract(users.users, delta);
      ReplaceAndRemove(delta, filtered, hash, removeOk, updateOk);
    }

    method ReloadOrStart(list: seq<UserSpec>, reloadOk: bool, startOk: bool)
      requires Valid()
      modifies kernel
      ensures Valid()
      ensures kernel.View() == if old(kernel.running) && reloadOk then SingBox.ReloadSpec(old(kernel.View()), list, true).kernel
                               else SingBox.StartSpec(old(kernel.View()), list, startOk).kernel
    {
      if kernel.running {
        var failed := kernel.Reload(list, reloadOk);
        if !failed {
          return;
        }
      }
      var _ := kernel.Start(list, startOk);
    }

    /** A new configuration has been accepted. */
    method ApplyChanges(reloadOk: bool, startOk: bool)
      requires Valid()
      modifies this, kernel
      ensures Valid() && View() == ConfigSpec(old(View()), reloadOk, startOk)
    {
      hasConfig := true;
      var list := users.users;
      if |list| == 0 {
        kernel.Stop();
        return;
      }
      ReloadOrStart(list, reloadOk, startOk);
    }
  }

  method FirstReplaced(users: seq<UserSpec>, u: UserSpec) returns (stale: Option<UserSpec>)
    ensures stale == Replaced(users, u)
  {
    assert users[0..] == users;
    for i := 0 to |users|
      invariant Replaced(users, u) == Replaced(users[i..], u)
    {
      if users[i].id == u.id && users[i].uuid != u.uuid {
        return Some(users[i]);
      }
      assert users[i..][1..] == users[i + 1..];
    }
    stale := None;
  }
}
