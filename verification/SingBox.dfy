/**
 The user bookkeeping of the sing-box kernel. Rebuilding the inbounds and starting
 an instance may fail; whether they do is an argument.
 */
module SingBox {
  import opened Wrappers
  import opened Users

  // ----- what a list shows -----

  function UuidOf(list: seq<UserSpec>, id: int): Option<string> {
    var u := Lookup(list, id);
    if u.Some? then Some(u.value.uuid) else None
  }

  /** The same numbers with the same UUIDs; limits and order may differ. */
  ghost predicate Agree(a: seq<UserSpec>, b: seq<UserSpec>) {
    forall id :: UuidOf(a, id) == UuidOf(b, id)
  }

  // ----- the difference of two lists -----

  predicate IsNew(before: seq<UserSpec>, u: UserSpec) {
    UuidOf(before, u.id) != Some(u.uuid)
  }

  function Added(before: seq<UserSpec>, after: seq<UserSpec>): seq<UserSpec> {
    if after == [] then []
    else
      var n := |after| - 1;
      Added(before, after[..n]) + if IsNew(before, after[n]) then [after[n]] else []
  }

  function Removed(before: seq<UserSpec>, after: seq<UserSpec>): seq<UserSpec> {
    Without(before, Ids(after))
  }

  lemma IsNewById(list: seq<UserSpec>, u: UserSpec)
    ensures IsNew(list, u) <==> u.id !in ById(list) || ById(list)[u.id].uuid != u.uuid
  {
    FindIds(list, u.id);
  }

  method UserDiff(oldUsers: seq<UserSpec>, newUsers: seq<UserSpec>) returns (toAdd: seq<UserSpec>, toRemove: seq<UserSpec>)
    ensures toAdd == Added(oldUsers, newUsers) && toRemove == Removed(oldUsers, newUsers)
  {
    var oldMap := IndexById(oldUsers);
    var newMap := IndexById(newUsers);
    toAdd, toRemove := [], [];
    for i := 0 to |newUsers|
      invariant toAdd == Added(oldUsers, newUsers[..i])
    {
      var u := newUsers[i];
      assert newUsers[..i + 1][..i] == newUsers[..i];
      IsNewById(oldUsers, u);
      if u.id !in oldMap || oldMap[u.id].uuid != u.uuid {
        toAdd := toAdd + [u];
      }
    }
    assert newUsers[..|newUsers|] == newUsers && oldUsers[..|oldUsers|] == oldUsers;
    ByIdKeys(newUsers);
    for i := 0 to |oldUsers|
      invariant toRemove == Without(oldUsers[..i], Ids(newUsers))
    {
      assert oldUsers[..i + 1][..i] == oldUsers[..i];
      if oldUsers[i].id !in newMap {
        toRemove := toRemove + [oldUsers[i]];
      }
    }
  }

  lemma {:induction false} AddedShows(before: seq<UserSpec>, after: seq<UserSpec>, id: int)
    requires UniqueIds(after)
    ensures UuidOf(Added(before, after), id) == if UuidOf(before, id) == UuidOf(after, id) then None else UuidOf(after, id)
  {
    if after != [] {
      var n := |after| - 1;
      var init := after[..n];
      AddedShows(before, init, id);
      assert after == init + [after[n]];
      LookupPush(init, after[n], id);
      LookupPush(Added(before, init), after[n], id);
      if !IsNew(before, after[n]) {
        assert Added(before, after) == Added(before, init);
      }
      if id == after[n].id {
        assert Find(init, id) == -1;
      }
    }
  }

  /** Taking out the one list and overlaying the other is the whole transition. */
  lemma DiffTransforms(before: seq<UserSpec>, after: seq<UserSpec>)
    requires UniqueIds(after)
    ensures Agree(Overlay(Without(before, Ids(Removed(before, after))), Added(before, after)), after)
  {
    var kept := Without(before, Ids(Removed(before, after)));
    forall id
      ensures UuidOf(Overlay(kept, Added(before, after)), id) == UuidOf(after, id)
    {
      OverlayShape(kept, Added(before, after));
      AddedShows(before, after, id);
      WithoutShows(before, Ids(Removed(before, after)), id);
      WithoutIds(before, Ids(after));
      FindIds(before, id);
      FindIds(after, id);
    }
  }

  lemma FirstMember(list: seq<UserSpec>) returns (u: UserSpec)
    requires list != []
    ensures u in list
  {
    u := list[0];
  }

  /** Nothing to add and nothing to remove means exactly that the kernel shows the list already. */
  lemma DiffEmptyIff(before: seq<UserSpec>, after: seq<UserSpec>)
    requires UniqueIds(after)
    ensures Added(before, after) == [] && Removed(before, after) == [] <==> Agree(before, after)
  {
    if Added(before, after) == [] && Removed(before, after) == [] {
      DiffTransforms(before, after);
      WithoutAbsent(before, {});
      assert Ids([]) == {};
      assert Overlay(before, []) == before;
    }
    if Agree(before, after) {
      if Added(before, after) != [] {
        var a := Added(before, after);
        AddedShows(before, after, a[|a| - 1].id);
      }
      forall u | u in before
        ensures u.id in Ids(after)
      {
        assert UuidOf(before, u.id) == UuidOf(after, u.id);
        FindIds(before, u.id);
        FindIds(after, u.id);
      }
      WithoutMembers(before, Ids(after));
      if Removed(before, after) != [] {
        var _ := FirstMember(Removed(before, after));
        assert false;
      }
    }
  }

  // ----- the kernel -----

  /** UUID to number, for attributing connections; the last user of a UUID wins. */
  function BuildUserMap(users: seq<UserSpec>): map<string, int> {
    if users == [] then map[]
    else BuildUserMap(users[..|users| - 1])[users[|users| - 1].uuid := users[|users| - 1].id]
  }

  /** Exactly the UUIDs of the list are attributed. */
  lemma {:induction false} UserMapKeys(users: seq<UserSpec>)
    ensures forall uuid :: uuid in BuildUserMap(users) <==> exists u :: u in users && u.uuid == uuid
  {
    if users != [] {
      var n := |users| - 1;
      UserMapKeys(users[..n]);
      assert users == users[..n] + [users[n]];
    }
  }

  /** A UUID is attributed to its last user; where no two users share one, every user gets its own. */
  lemma {:induction false} UserMapAt(users: seq<UserSpec>, k: nat)
    requires k < |users| && forall l :: k < l < |users| ==> users[l].uuid != users[k].uuid
    ensures users[k].uuid in BuildUserMap(users) && BuildUserMap(users)[users[k].uuid] == users[k].id
  {
    var n := |users| - 1;
    if k < n {
      UserMapAt(users[..n], k);
    }
  }

  datatype Kernel = Kernel(running: bool, users: seq<UserSpec>, userMap: map<string, int>)

  const STOPPED := Kernel(false, [], map[])

  datatype Outcome = Outcome(kernel: Kernel, failed: bool, added: int, removed: int)

  function Show(k: Kernel, users: seq<UserSpec>): Kernel {
    k.(users := users, userMap := BuildUserMap(users))
  }

  function AddSpec(k: Kernel, users: seq<UserSpec>, reloadOk: bool): Outcome {
    var toAdd := Without(users, Ids(k.users));
    if !k.running then Outcome(k, true, 0, 0)
    else if toAdd == [] then Outcome(k, false, 0, 0)
    else if !reloadOk then Outcome(k, true, 0, 0)
    else Outcome(Show(k, k.users + toAdd), false, |toAdd|, 0)
  }

  function RemoveSpec(k: Kernel, users: seq<UserSpec>, reloadOk: bool): Outcome {
    var kept := Without(k.users, Ids(users));
    if !k.running then Outcome(k, true, 0, 0)
    else if kept == k.users then Outcome(k, false, 0, 0)
    else if !reloadOk then Outcome(k, true, 0, 0)
    else Outcome(Show(k, kept), false, 0, |k.users| - |kept|)
  }

  function UpdateSpec(k: Kernel, users: seq<UserSpec>, reloadOk: bool): Outcome {
    var toAdd, toRemove := Added(k.users, users), Removed(k.users, users);
    if !k.running then Outcome(k, true, 0, 0)
    else if toAdd == [] && toRemove == [] then Outcome(Show(k, users), false, 0, 0)
    else if !reloadOk then Outcome(k, true, 0, 0)
    else Outcome(Show(k, users), false, |toAdd|, |toRemove|)
  }

  function StartSpec(k: Kernel, users: seq<UserSpec>, startOk: bool): Outcome {
    if startOk then Outcome(Show(k, users).(running := true), false, 0, 0) else Outcome(k, true, 0, 0)
  }

  function ReloadSpec(k: Kernel, users: seq<UserSpec>, reloadOk: bool): Outcome {
    if k.running && reloadOk then Outcome(Show(k, users), false, 0, 0) else Outcome(k, true, 0, 0)
  }

  /** The attribution map is the one of the recorded users. */
  predicate Attributed(k: Kernel) {
    k.userMap == BuildUserMap(k.users)
  }

  /** A start works whether or not the kernel runs; if it does not, everything stays as it is. */
  lemma StartMeans(k: Kernel, users: seq<UserSpec>, startOk: bool)
    requires Attributed(k)
    ensures var r := StartSpec(k, users, startOk);
            && r.failed == !startOk && Attributed(r.kernel)
            && (!r.failed ==> r.kernel.running && r.kernel.users == users)
            && (r.failed ==> r.kernel == k)
  {
  }

  /** Only a running kernel can be reloaded. */
  lemma ReloadMeans(k: Kernel, users: seq<UserSpec>, reloadOk: bool)
    requires Attributed(k)
    ensures var r := ReloadSpec(k, users, reloadOk);
            && r.failed == !(k.running && reloadOk) && Attributed(r.kernel)
            && (!r.failed ==> r.kernel.running && r.kernel.users == users)
            && (r.failed ==> r.kernel == k)
  {
  }

  /**
   An addition keeps the users that are there and puts the unknown numbers behind
   them in the order of the list; the count is how many those are. It fails, and
   changes nothing, on a stopped kernel, or if a needed reload fails.
   */
  lemma AddMeans(k: Kernel, users: seq<UserSpec>, reloadOk: bool) returns (unknown: seq<nat>)
    requires Attributed(k)
    ensures forall i :: 0 <= i < |users| ==> (i in unknown <==> forall l :: 0 <= l < |k.users| ==> k.users[l].id != users[i].id)
    ensures var r := AddSpec(k, users, reloadOk);
            && r.failed == (!k.running || (unknown != [] && !reloadOk)) && Attributed(r.kernel)
            && (r.failed ==> r.kernel == k && r.added == 0)
            && (!r.failed ==>
                  && r.kernel.running && r.added == |unknown| == |r.kernel.users| - |k.users|
                  && k.users <= r.kernel.users && Picks(users, r.kernel.users[|k.users|..], unknown))
  {
    var toAdd := Without(users, Ids(k.users));
    unknown := WithoutOrder(users, Ids(k.users));
    forall i | 0 <= i < |users|
      ensures i in unknown <==> forall l :: 0 <= l < |k.users| ==> k.users[l].id != users[i].id
    {
      IdsAt(k.users, users[i].id);
    }
    assert (k.users + toAdd)[|k.users|..] == toAdd;
    assert k.users + [] == k.users;
  }

  /** A removal keeps exactly the users whose numbers are not listed, in their order; the count is how many go. */
  lemma RemoveMeans(k: Kernel, users: seq<UserSpec>, reloadOk: bool) returns (kept: seq<nat>)
    requires Attributed(k)
    ensures forall i :: 0 <= i < |k.users| ==> (i in kept <==> forall l :: 0 <= l < |users| ==> users[l].id != k.users[i].id)
    ensures var r := RemoveSpec(k, users, reloadOk);
            && Attributed(r.kernel) && (r.failed ==> r.kernel == k && r.removed == 0)
            && (k.running && reloadOk ==> !r.failed) && (!k.running ==> r.failed)
            && (!r.failed ==>
                  && r.kernel.running && r.removed == |k.users| - |r.kernel.users|
                  && Picks(k.users, r.kernel.users, kept))
  {
    kept := WithoutOrder(k.users, Ids(users));
    forall i | 0 <= i < |k.users|
      ensures i in kept <==> forall l :: 0 <= l < |users| ==> users[l].id != k.users[i].id
    {
      IdsAt(users, k.users[i].id);
    }
  }

  /** An update that works leaves exactly the list. */
  lemma UpdateMeans(k: Kernel, users: seq<UserSpec>, reloadOk: bool)
    requires Attributed(k)
    ensures var r := UpdateSpec(k, users, reloadOk);
            && Attributed(r.kernel) && (r.failed ==> r.kernel == k && r.added == r.removed == 0)
            && (k.running && reloadOk ==> !r.failed) && (!k.running ==> r.failed)
            && (!r.failed ==>
                  && r.kernel.running && r.kernel.users == users
                  && r.added == |Added(k.users, users)| && r.removed == |Removed(k.users, users)|)
  {
  }

  class SingBox {
    var running: bool
    var users: seq<UserSpec>
    var userMap: map<string, int>

    function View(): Kernel
      reads this
    {
      Kernel(running, users, userMap)
    }

    /** Connections are attributed by the recorded users, and by nothing else. */
    predicate Valid()
      reads this
    {
      userMap == BuildUserMap(users)
    }

    constructor ()
      ensures View() == STOPPED && Valid()
    {
      running, users, userMap := false, [], map[];
    }

    method SetUserMap(list: seq<UserSpec>)
      modifies this`userMap
      ensures userMap == BuildUserMap(list)
    {
      var m: map<string, int> := map[];
      for i := 0 to |list|
        invariant m == BuildUserMap(list[..i])
      {
        assert list[..i + 1][..i] == list[..i];
        m := m[list[i].uuid := list[i].id];
      }
      assert list[..|list|] == list;
      userMap := m;
    }

    /** Rebuilding the inbounds swaps the attribution map last, when nothing can fail any more. */
    method ReloadInbounds(list: seq<UserSpec>, reloadOk: bool) returns (failed: bool)
      modifies this`userMap
      ensures failed == !reloadOk
      ensures userMap == if reloadOk then BuildUserMap(list) else old(userMap)
    {
      if !reloadOk {
        return true;
      }
      SetUserMap(list);
      return false;
    }

    method AddUsers(list: seq<UserSpec>, reloadOk: bool) returns (added: nat, failed: bool)
      requires Valid()
      modifies this
      ensures Valid()
      ensures Outcome(View(), failed, added, 0) == AddSpec(old(View()), list, reloadOk)
    {
      if !running {
        return 0, true;
      }
      var toAdd := [];
      for i := 0 to |list|
        invariant toAdd == Without(list[..i], Ids(users))
      {
        assert list[..i + 1][..i] == list[..i];
        if list[i].id !in Ids(users) {
          toAdd := toAdd + [list[i]];
        }
      }
      assert list[..|list|] == list;
      if |toAdd| == 0 {
        return 0, false;
      }
      var merged := users + toAdd;
      failed := ReloadInbounds(merged, reloadOk);
      if failed {
        return 0, true;
      }
      users := merged;
      added := |toAdd|;
    }

    method RemoveUsers(list: seq<UserSpec>, reloadOk: bool) returns (removed: nat, failed: bool)
      requires Valid()
      modifies this
      ensures Valid()
      ensures Outcome(View(), failed, 0, removed) == RemoveSpec(old(View()), list, reloadOk)
    {
      if !running {
        return 0, true;
      }
      var kept := [];
      removed := 0;
      for i := 0 to |users|
        invariant kept == Without(users[..i], Ids(list))
        invariant removed == i - |kept|
        invariant removed == 0 ==> kept == users[..i]
      {
        assert users[..i + 1][..i] == users[..i];
        if users[i].id in Ids(list) {
          removed := removed + 1;
        } else {
          kept := kept + [users[i]];
        }
      }
      assert users[..|users|] == users;
      assert kept == Without(users, Ids(list)) && removed == |users| - |kept|;
      if removed == 0 {
        return 0, false;
      }
      failed := ReloadInbounds(kept, reloadOk);
      if failed {
        return 0, true;
      }
      users := kept;
    }

    method UpdateUsers(list: seq<UserSpec>, reloadOk: bool) returns (added: nat, removed: nat, failed: bool)
      requires Valid()
      modifies this
      ensures Valid()
      ensures Outcome(View(), failed, added, removed) == UpdateSpec(old(View()), list, reloadOk)
    {
      if !running {
        return 0, 0, true;
      }
      var toAdd, toRemove := UserDiff(users, list);
      added, removed, failed := |toAdd|, |toRemove|, false;
      if added == 0 && removed == 0 {
        SetUserMap(list);
        users := list;
        return;
      }
      failed := ReloadInbounds(list, reloadOk);
      if failed {
        return 0, 0, true;
      }
      users := list;
    }

    /** A failed start leaves the running instance and its users alone. */
    method Start(list: seq<UserSpec>, startOk: bool) returns (failed: bool)
      requires Valid()
      modifies this
      ensures Valid()
      ensures Outcome(View(), failed, 0, 0) == StartSpec(old(View()), list, startOk)
    {
      if !startOk {
        return true;
      }
      running, users := true, list;
      SetUserMap(list);
      return false;
    }

    method Reload(list: seq<UserSpec>, reloadOk: bool) returns (failed: bool)
      requires Valid()
      modifies this
      ensures Valid()
      ensures Outcome(View(), failed, 0, 0) == ReloadSpec(old(View()), list, reloadOk)
    {
      if !running {
        return true;
      }
      failed := ReloadInbounds(list, reloadOk);
      if !failed {
        users := list;
      }
    }

    method Stop()
      requires Valid()
      modifies this`running
      ensures Valid() && View() == old(View()).(running := false)
    {
      running := false;
    }
  }
}
