/**
 Bringing the desired users and the kernel's users together, whatever fails. Which
 kernel calls fail is an argument: `preFails` lists the delta positions whose early
 removal cannot rebuild the inbounds.
 */
module UserSync {
  import opened Wrappers
  import opened Users
  import opened SingBox

  datatype Node = Node(desired: seq<UserSpec>, kernel: Kernel, hasConfig: bool)

  // ----- the operations on values -----

  /** Keep the new list if the kernel took it, go back to the old one otherwise. */
  function Settle(n: Node, list: seq<UserSpec>, r: Outcome): Node {
    n.(desired := if r.failed then n.desired else list, kernel := r.kernel)
  }

  /** Update the running kernel, or else start a new instance. */
  function UpdateOrStart(k: Kernel, list: seq<UserSpec>, updateOk: bool, startOk: bool): Outcome {
    var r := UpdateSpec(k, list, updateOk);
    if r.failed then StartSpec(k, list, startOk) else r
  }

  function AddOrUpdate(k: Kernel, delta: seq<UserSpec>, merged: seq<UserSpec>, addOk: bool, updateOk: bool): Outcome {
    var r := AddSpec(k, delta, addOk);
    if r.failed then UpdateSpec(k, merged, updateOk) else r
  }

  function RemoveOrUpdate(k: Kernel, delta: seq<UserSpec>, filtered: seq<UserSpec>, removeOk: bool, updateOk: bool): Outcome {
    var r := RemoveSpec(k, delta, removeOk);
    if r.failed then UpdateSpec(k, filtered, updateOk) else r
  }

  function FullSpec(n: Node, users: seq<UserSpec>, updateOk: bool, startOk: bool): Node {
    if !n.kernel.running && (users == [] || !n.hasConfig) then n.(desired := users)
    else Settle(n, users, UpdateOrStart(n.kernel, users, updateOk, startOk))
  }

  /** The kernel refused everything, so that list and hash go back to the old ones. */
  predicate FullUndone(n: Node, users: seq<UserSpec>, updateOk: bool, startOk: bool) {
    (n.kernel.running || (users != [] && n.hasConfig)) && UpdateOrStart(n.kernel, users, updateOk, startOk).failed
  }

  /** The first user of the same number with another UUID. */
  function Replaced(users: seq<UserSpec>, u: UserSpec): Option<UserSpec> {
    if users == [] then None
    else if users[0].id == u.id && users[0].uuid != u.uuid then Some(users[0])
    else Replaced(users[1..], u)
  }

  /** The early removals, one reload each. */
  function PreRemove(k: Kernel, desired: seq<UserSpec>, delta: seq<UserSpec>, preFails: set<int>): Kernel {
    if delta == [] then k
    else
      var n := |delta| - 1;
      var before := PreRemove(k, desired, delta[..n], preFails);
      var stale := Replaced(desired, delta[n]);
      if stale.Some? then RemoveSpec(before, [stale.value], n !in preFails).kernel else before
  }

  function AddDeltaSpec(n: Node, delta: seq<UserSpec>, preFails: set<int>, addOk: bool, updateOk: bool, startOk: bool): Node {
    var merged := Overlay(Overlay([], n.desired), delta);
    if delta == [] then n
    else if n.kernel.running then
      Settle(n, merged, AddOrUpdate(PreRemove(n.kernel, n.desired, delta, preFails), delta, merged, addOk, updateOk))
    else if n.hasConfig then Settle(n, merged, StartSpec(n.kernel, merged, startOk))
    else n.(desired := merged)
  }

  predicate AddDeltaUndone(n: Node, delta: seq<UserSpec>, preFails: set<int>, addOk: bool, updateOk: bool, startOk: bool) {
    var merged := Overlay(Overlay([], n.desired), delta);
    delta == []
    || (if n.kernel.running then
          AddOrUpdate(PreRemove(n.kernel, n.desired, delta, preFails), delta, merged, addOk, updateOk).failed
        else n.hasConfig && StartSpec(n.kernel, merged, startOk).failed)
  }

  predicate RemoveDeltaUndone(n: Node, delta: seq<UserSpec>, removeOk: bool, updateOk: bool) {
    delta == []
    || (n.kernel.running && RemoveOrUpdate(n.kernel, delta, Without(n.desired, Ids(delta)), removeOk, updateOk).failed)
  }

  function RemoveDeltaSpec(n: Node, delta: seq<UserSpec>, removeOk: bool, updateOk: bool): Node {
    var filtered := Without(n.desired, Ids(delta));
    if delta == [] then n
    else if n.kernel.running then Settle(n, filtered, RemoveOrUpdate(n.kernel, delta, filtered, removeOk, updateOk))
    else n.(desired := filtered)
  }

  /** A new configuration: reload, else restart; without users the kernel stops. */
  function ConfigSpec(n: Node, reloadOk: bool, startOk: bool): Node {
    if n.desired == [] then n.(hasConfig := true, kernel := n.kernel.(running := false))
    else if n.kernel.running && reloadOk then n.(hasConfig := true, kernel := ReloadSpec(n.kernel, n.desired, true).kernel)
    else n.(hasConfig := true, kernel := StartSpec(n.kernel, n.desired, startOk).kernel)
  }

  // ----- agreement -----

  ghost predicate InStep(n: Node) {
    n.kernel.running ==> Agree(n.kernel.users, n.desired)
  }

  lemma AgreeIds(a: seq<UserSpec>, b: seq<UserSpec>)
    requires Agree(a, b)
    ensures Ids(a) == Ids(b)
  {
    forall id
      ensures id in Ids(a) <==> id in Ids(b)
    {
      FindIds(a, id);
      FindIds(b, id);
      assert UuidOf(a, id) == UuidOf(b, id);
    }
  }

  /** The kernel already shows the list when nothing has to be reloaded. */
  lemma UpdateAgreesIff(k: Kernel, users: seq<UserSpec>, reloadOk: bool)
    requires k.running && UniqueIds(users)
    ensures var r := UpdateSpec(k, users, reloadOk);
            && (r.failed <==> !reloadOk && !Agree(k.users, users))
            && r.kernel == if r.failed then k else Show(k, users)
  {
    DiffEmptyIff(k.users, users);
  }

  /** A full update brings both together unless everything fails; then nothing has changed. */
  lemma FullUpdateAgreesIff(n: Node, users: seq<UserSpec>, updateOk: bool, startOk: bool)
    requires n.kernel.running && UniqueIds(users)
    ensures var n2 := FullSpec(n, users, updateOk, startOk);
            var lost := !updateOk && !startOk && !Agree(n.kernel.users, users);
            && (lost ==> n2 == n)
            && (!lost ==> n2.desired == n2.kernel.users == users)
            && (InStep(n2) <==> !lost || InStep(n))
  {
    UpdateAgreesIff(n.kernel, users, updateOk);
  }

  /** The kernel without the removed numbers. */
  lemma RemoveShows(k: Kernel, users: seq<UserSpec>, reloadOk: bool)
    requires k.running
    ensures var r := RemoveSpec(k, users, reloadOk);
            && r.kernel.running
            && (r.failed <==> !reloadOk && Ids(users) * Ids(k.users) != {})
            && (reloadOk ==> r.kernel.users == Without(k.users, Ids(users)))
            && (!reloadOk ==> r.kernel == k)
  {
    var kept := Without(k.users, Ids(users));
    if id :| id in Ids(users) * Ids(k.users) {
      WithoutIds(k.users, Ids(users));
      assert id in Ids(k.users) && id !in Ids(kept);
    } else {
      assert Ids(users) * Ids(k.users) == {};
      forall u | u in k.users
        ensures u.id !in Ids(users)
      {
        assert u.id in Ids(k.users);
        assert u.id !in Ids(users) * Ids(k.users);
      }
      WithoutAbsent(k.users, Ids(users));
    }
  }

  /** A remove delta keeps both together whatever fails; it is undone only if both attempts fail. */
  lemma RemoveDeltaAgrees(n: Node, delta: seq<UserSpec>, removeOk: bool, updateOk: bool)
    requires n.kernel.running && UniqueIds(n.desired) && InStep(n)
    ensures var n2 := RemoveDeltaSpec(n, delta, removeOk, updateOk);
            && InStep(n2) && n2.kernel.running
            && n2.desired == (if removeOk || updateOk || Ids(delta) * Ids(n.desired) == {} then Without(n.desired, Ids(delta))
                              else n.desired)
  {
    var filtered := Without(n.desired, Ids(delta));
    RemoveWorks(n.kernel, n.desired, delta, removeOk);
    WithoutUnique(n.desired, Ids(delta));
    UpdateAgreesIff(n.kernel, filtered, updateOk);
    if delta == [] {
      assert Ids(delta) == {};
      WithoutAbsent(n.desired, {});
    } else if RemoveSpec(n.kernel, delta, removeOk).failed {
      SomethingRemoved(n.desired, Ids(delta));
      if Agree(n.kernel.users, filtered) {
        AgreeIds(n.kernel.users, filtered);
        AgreeIds(n.kernel.users, n.desired);
        assert false;
      }
    }
  }

  lemma SomethingRemoved(list: seq<UserSpec>, ids: set<int>)
    requires ids * Ids(list) != {}
    ensures Ids(Without(list, ids)) != Ids(list)
  {
    WithoutIds(list, ids);
    var id :| id in ids * Ids(list);
    assert id !in Ids(Without(list, ids));
  }

  lemma RemoveWorks(k: Kernel, desired: seq<UserSpec>, delta: seq<UserSpec>, removeOk: bool)
    requires k.running && Agree(k.users, desired)
    ensures var r := RemoveSpec(k, delta, removeOk);
            && r.kernel.running
            && (r.failed <==> !removeOk && Ids(delta) * Ids(desired) != {})
            && (!r.failed ==> Agree(r.kernel.users, Without(desired, Ids(delta))))
            && (r.failed ==> r.kernel == k)
  {
    RemoveShows(k, delta, removeOk);
    RemovedAgree(k.users, desired, Ids(delta));
    AgreeIds(k.users, desired);
    if !removeOk && Ids(delta) * Ids(k.users) == {} {
      NothingRemoved(k.users, Ids(delta));
    }
  }

  lemma RemovedAgree(a: seq<UserSpec>, b: seq<UserSpec>, ids: set<int>)
    requires Agree(a, b)
    ensures Agree(Without(a, ids), Without(b, ids))
  {
    forall id
      ensures UuidOf(Without(a, ids), id) == UuidOf(Without(b, ids), id)
    {
      WithoutShows(a, ids, id);
      WithoutShows(b, ids, id);
      assert UuidOf(a, id) == UuidOf(b, id);
    }
  }

  lemma NothingRemoved(list: seq<UserSpec>, ids: set<int>)
    requires ids * Ids(list) == {}
    ensures Without(list, ids) == list
  {
    forall u | u in list
      ensures u.id !in ids
    {
      assert u.id in Ids(list);
      assert u.id !in ids * Ids(list);
    }
    WithoutAbsent(list, ids);
  }

  // ----- the add delta -----

  /** The delta gives the number another UUID than it has. */
  predicate Changes(desired: seq<UserSpec>, u: UserSpec) {
    UuidOf(desired, u.id).Some? && UuidOf(desired, u.id) != Some(u.uuid)
  }

  /** The numbers removed early: an entry changes their UUID and its reload works. */
  function RemovedEarly(desired: seq<UserSpec>, delta: seq<UserSpec>, preFails: set<int>): set<int> {
    if delta == [] then {}
    else
      var n := |delta| - 1;
      RemovedEarly(desired, delta[..n], preFails)
      + if Changes(desired, delta[n]) && n !in preFails then {delta[n].id} else {}
  }

  /** The numbers that have another UUID after the delta than before. */
  function Rewritten(desired: seq<UserSpec>, delta: seq<UserSpec>): set<int> {
    set id | id in Ids(desired) && Lookup(delta, id).Some? && UuidOf(delta, id) != UuidOf(desired, id)
  }

  lemma {:induction false} ReplacedIff(desired: seq<UserSpec>, u: UserSpec)
    requires UniqueIds(desired)
    ensures Replaced(desired, u).Some? <==> Changes(desired, u)
    ensures Replaced(desired, u).Some? ==> Replaced(desired, u).value.id == u.id
    decreases |desired|
  {
    if desired != [] {
      var rest := desired[1..];
      ReplacedIff(rest, u);
      assert desired == [desired[0]] + rest;
      LookupConcat([desired[0]], rest, u.id);
      assert [desired[0]][..0] == [];
      if desired[0].id == u.id {
        FindIds(rest, u.id);
        NotTwice(desired, u.id);
      }
    }
  }

  lemma NotTwice(users: seq<UserSpec>, id: int)
    requires UniqueIds(users) && users != [] && users[0].id == id
    ensures id !in Ids(users[1..])
  {
    forall u | u in users[1..]
      ensures u.id != id
    {
      var k :| 0 <= k < |users[1..]| && users[1..][k] == u;
      assert users[k + 1] == u;
    }
  }

  lemma {:induction false} PreRemoveShows(k: Kernel, desired: seq<UserSpec>, delta: seq<UserSpec>, preFails: set<int>, id: int)
    requires k.running && UniqueIds(desired)
    ensures PreRemove(k, desired, delta, preFails).running
    ensures UuidOf(PreRemove(k, desired, delta, preFails).users, id)
            == if id in RemovedEarly(desired, delta, preFails) then None else UuidOf(k.users, id)
  {
    if delta != [] {
      var n := |delta| - 1;
      var before := PreRemove(k, desired, delta[..n], preFails);
      PreRemoveShows(k, desired, delta[..n], preFails, id);
      ReplacedIff(desired, delta[n]);
      var stale := Replaced(desired, delta[n]);
      if stale.Some? {
        RemoveShows(before, [stale.value], n !in preFails);
        assert [stale.value][0] == stale.value;
        assert Ids([stale.value]) == {delta[n].id};
        WithoutShows(before.users, {delta[n].id}, id);
      }
    }
  }

  lemma {:induction false} RemovedEarlyBounds(desired: seq<UserSpec>, delta: seq<UserSpec>, preFails: set<int>)
    ensures RemovedEarly(desired, delta, preFails) <= Ids(desired) * Ids(delta)
  {
    if delta != [] {
      var n := |delta| - 1;
      RemovedEarlyBounds(desired, delta[..n], preFails);
      assert forall u :: u in delta[..n] ==> u in delta;
      assert delta[n] in delta;
      FindIds(desired, delta[n].id);
    }
  }

  /** After a successful add, for each number. */
  lemma AddShows(k: Kernel, delta: seq<UserSpec>, addOk: bool, id: int)
    requires k.running && !AddSpec(k, delta, addOk).failed
    ensures UuidOf(AddSpec(k, delta, addOk).kernel.users, id)
            == if UuidOf(k.users, id).Some? then UuidOf(k.users, id) else UuidOf(delta, id)
  {
    var toAdd := Without(delta, Ids(k.users));
    FindIds(k.users, id);
    WithoutShows(delta, Ids(k.users), id);
    LookupConcat(k.users, toAdd, id);
    if toAdd == [] {
      assert k.users + toAdd == k.users;
    }
  }

  /** An add needs a reload when some number of the delta is missing from the kernel. */
  lemma AddFailsIff(k: Kernel, delta: seq<UserSpec>, addOk: bool)
    requires k.running
    ensures AddSpec(k, delta, addOk).failed <==> !addOk && !(Ids(delta) <= Ids(k.users))
  {
    var toAdd := Without(delta, Ids(k.users));
    WithoutIds(delta, Ids(k.users));
    if toAdd == [] {
      assert Ids(toAdd) == {};
      assert forall id :: id in Ids(delta) && id !in Ids(k.users) ==> id in Ids(delta) - Ids(k.users);
    } else {
      var u := FirstMember(toAdd);
      assert u.id in Ids(toAdd);
    }
  }

  /** Whether the add fails, in terms of what the caller knows: some number is new or was removed early. */
  predicate AddFails(desired: seq<UserSpec>, delta: seq<UserSpec>, preFails: set<int>, addOk: bool) {
    !addOk && !(Ids(delta) <= Ids(desired) - RemovedEarly(desired, delta, preFails))
  }

  lemma EarlyIds(n: Node, delta: seq<UserSpec>, preFails: set<int>)
    requires n.kernel.running && UniqueIds(n.desired) && InStep(n)
    ensures Ids(PreRemove(n.kernel, n.desired, delta, preFails).users) == Ids(n.desired) - RemovedEarly(n.desired, delta, preFails)
  {
    var early := PreRemove(n.kernel, n.desired, delta, preFails);
    forall id
      ensures id in Ids(early.users) <==> id in Ids(n.desired) - RemovedEarly(n.desired, delta, preFails)
    {
      PreRemoveShows(n.kernel, n.desired, delta, preFails, id);
      FindIds(early.users, id);
      FindIds(n.desired, id);
      assert UuidOf(n.kernel.users, id) == UuidOf(n.desired, id);
    }
  }

  lemma OverlayShows(desired: seq<UserSpec>, delta: seq<UserSpec>, id: int)
    ensures UuidOf(Overlay(desired, delta), id) == if Lookup(delta, id).Some? then UuidOf(delta, id) else UuidOf(desired, id)
  {
    OverlayShape(desired, delta);
  }

  /** When the add works, both agree exactly if every rewritten number was removed early. */
  lemma AddWorks(n: Node, delta: seq<UserSpec>, preFails: set<int>, addOk: bool)
    requires n.kernel.running && UniqueIds(n.desired) && InStep(n)
    requires !AddSpec(PreRemove(n.kernel, n.desired, delta, preFails), delta, addOk).failed
    ensures var k := AddSpec(PreRemove(n.kernel, n.desired, delta, preFails), delta, addOk).kernel;
            Agree(k.users, Overlay(n.desired, delta))
            <==> Rewritten(n.desired, delta) <= RemovedEarly(n.desired, delta, preFails)
  {
    var early := PreRemove(n.kernel, n.desired, delta, preFails);
    PreRemoveShows(n.kernel, n.desired, delta, preFails, 0);
    var k := AddSpec(early, delta, addOk).kernel;
    var gone := RemovedEarly(n.desired, delta, preFails);
    forall id
      ensures UuidOf(k.users, id) == UuidOf(Overlay(n.desired, delta), id)
              <==> id !in Rewritten(n.desired, delta) || id in gone
    {
      AddWorksAt(n, delta, preFails, addOk, id);
    }
    if Agree(k.users, Overlay(n.desired, delta)) {
      forall id | id in Rewritten(n.desired, delta)
        ensures id in gone
      {
        assert UuidOf(k.users, id) == UuidOf(Overlay(n.desired, delta), id);
      }
    }
  }

  lemma AddWorksAt(n: Node, delta: seq<UserSpec>, preFails: set<int>, addOk: bool, id: int)
    requires n.kernel.running && UniqueIds(n.desired) && InStep(n)
    requires !AddSpec(PreRemove(n.kernel, n.desired, delta, preFails), delta, addOk).failed
    ensures var k := AddSpec(PreRemove(n.kernel, n.desired, delta, preFails), delta, addOk).kernel;
            UuidOf(k.users, id) == UuidOf(Overlay(n.desired, delta), id)
            <==> id !in Rewritten(n.desired, delta) || id in RemovedEarly(n.desired, delta, preFails)
  {
    var early := PreRemove(n.kernel, n.desired, delta, preFails);
    PreRemoveShows(n.kernel, n.desired, delta, preFails, id);
    AddShows(early, delta, addOk, id);
    OverlayShows(n.desired, delta, id);
    RemovedEarlyBounds(n.desired, delta, preFails);
    FindIds(n.desired, id);
    FindIds(delta, id);
    assert UuidOf(n.kernel.users, id) == UuidOf(n.desired, id);
  }

  /**
   When an add delta leaves the kernel with the desired users, exactly: if the add
   works, every rewritten number must have been removed early; if it fails, the
   fallback must work, or nothing may have been removed early.
   */
  predicate AddDeltaSafe(desired: seq<UserSpec>, delta: seq<UserSpec>, preFails: set<int>, addOk: bool, updateOk: bool) {
    var gone := RemovedEarly(desired, delta, preFails);
    if AddFails(desired, delta, preFails, addOk) then updateOk || gone == {}
    else Rewritten(desired, delta) <= gone
  }

  lemma AddDeltaAgreesIff(n: Node, delta: seq<UserSpec>, preFails: set<int>, addOk: bool, updateOk: bool, startOk: bool)
    requires n.kernel.running && UniqueIds(n.desired) && InStep(n)
    ensures InStep(AddDeltaSpec(n, delta, preFails, addOk, updateOk, startOk))
            <==> AddDeltaSafe(n.desired, delta, preFails, addOk, updateOk)
  {
    var early := PreRemove(n.kernel, n.desired, delta, preFails);
    OverlayRebuilds(n.desired);
    PreRemoveShows(n.kernel, n.desired, delta, preFails, 0);
    EarlyIds(n, delta, preFails);
    AddFailsIff(early, delta, addOk);
    if !AddSpec(early, delta, addOk).failed {
      AddWorks(n, delta, preFails, addOk);
      if delta == [] {
        assert Rewritten(n.desired, delta) == {};
      }
    } else {
      AddFallsBack(n, delta, preFails, updateOk);
    }
  }

  /** The rolled-back case: the list is the old one, the kernel lacks what was removed early. */
  lemma AddFallsBack(n: Node, delta: seq<UserSpec>, preFails: set<int>, updateOk: bool)
    requires n.kernel.running && UniqueIds(n.desired) && InStep(n)
    requires var early := PreRemove(n.kernel, n.desired, delta, preFails); !(Ids(delta) <= Ids(early.users))
    ensures var early := PreRemove(n.kernel, n.desired, delta, preFails);
            var update := UpdateSpec(early, Overlay(n.desired, delta), updateOk);
            && update.failed == !updateOk
            && (updateOk ==> Agree(update.kernel.users, Overlay(n.desired, delta)))
            && (Agree(early.users, n.desired) <==> RemovedEarly(n.desired, delta, preFails) == {})
  {
    var early := PreRemove(n.kernel, n.desired, delta, preFails);
    PreRemoveShows(n.kernel, n.desired, delta, preFails, 0);
    OverlayShape(n.desired, delta);
    OverlayIds(n.desired, delta);
    UpdateAgreesIff(early, Overlay(n.desired, delta), updateOk);
    if Agree(early.users, Overlay(n.desired, delta)) {
      AgreeIds(early.users, Overlay(n.desired, delta));
      assert false;
    }
    EarlyIds(n, delta, preFails);
    RemovedEarlyBounds(n.desired, delta, preFails);
    var gone := RemovedEarly(n.desired, delta, preFails);
    if Agree(early.users, n.desired) {
      AgreeIds(early.users, n.desired);
      assert gone <= Ids(n.desired) && Ids(n.desired) - gone == Ids(n.desired);
      assert gone == {};
    }
    if gone == {} {
      forall id
        ensures UuidOf(early.users, id) == UuidOf(n.desired, id)
      {
        PreRemoveShows(n.kernel, n.desired, delta, preFails, id);
        assert UuidOf(n.kernel.users, id) == UuidOf(n.desired, id);
      }
    }
  }

  /** A delta that changes no UUID is safe whatever fails. */
  lemma NoChangeIsSafe(desired: seq<UserSpec>, delta: seq<UserSpec>, preFails: set<int>, addOk: bool, updateOk: bool)
    requires forall u :: u in delta ==> !Changes(desired, u)
    ensures AddDeltaSafe(desired, delta, preFails, addOk, updateOk)
  {
    NothingEarly(desired, delta, preFails);
    forall id | id in Ids(desired)
      ensures id !in Rewritten(desired, delta)
    {
      FindIds(desired, id);
      if Lookup(delta, id).Some? {
        assert Lookup(delta, id).value in delta;
      }
    }
  }

  lemma {:induction false} NothingEarly(desired: seq<UserSpec>, delta: seq<UserSpec>, preFails: set<int>)
    requires forall u :: u in delta ==> !Changes(desired, u)
    ensures RemovedEarly(desired, delta, preFails) == {}
  {
    if delta != [] {
      assert forall u :: u in delta[..|delta| - 1] ==> u in delta;
      NothingEarly(desired, delta[..|delta| - 1], preFails);
      assert delta[|delta| - 1] in delta;
    }
  }

  /** A delta whose early removals all work is safe unless both the add and the fallback fail. */
  lemma AllEarlyIsSafe(desired: seq<UserSpec>, delta: seq<UserSpec>, preFails: set<int>, addOk: bool, updateOk: bool)
    requires forall i :: i in preFails ==> !(0 <= i < |delta|)
    requires addOk || updateOk
    ensures AddDeltaSafe(desired, delta, preFails, addOk, updateOk)
  {
    forall id | id in Rewritten(desired, delta)
      ensures id in RemovedEarly(desired, delta, preFails)
    {
      RewrittenIsEarly(desired, delta, preFails, id);
    }
  }

  lemma {:induction false} RewrittenIsEarly(desired: seq<UserSpec>, delta: seq<UserSpec>, preFails: set<int>, id: int)
    requires forall i :: i in preFails ==> !(0 <= i < |delta|)
    requires id in Rewritten(desired, delta)
    ensures id in RemovedEarly(desired, delta, preFails)
  {
    var n := |delta| - 1;
    assert delta == delta[..n] + [delta[n]];
    LookupPush(delta[..n], delta[n], id);
    if delta[n].id == id {
      FindIds(desired, id);
    } else {
      RewrittenIsEarly(desired, delta[..n], preFails, id);
    }
  }

  /** One user gets a new UUID and its early removal fails: the kernel keeps the old UUID and nobody reports an error. */
  lemma SilentDisagreement()
    ensures var list := [UserSpec(1, "a", 0, 0)];
            var n := Node(list, Show(STOPPED, list).(running := true), true);
            && InStep(n)
            && !InStep(AddDeltaSpec(n, [UserSpec(1, "b", 0, 0)], {0}, true, true, true))
  {
    var list := [UserSpec(1, "a", 0, 0)];
    var delta := [UserSpec(1, "b", 0, 0)];
    var n := Node(list, Show(STOPPED, list).(running := true), true);
    AddDeltaAgreesIff(n, delta, {0}, true, true, true);
    FindUnique(list, 0);
    FindUnique(delta, 0);
    FindIds(list, 1);
    assert list[0].id in Ids(list);
    assert delta[..0] == [] && delta[0].id == 1;
    assert 1 in Rewritten(list, delta);
    assert 1 !in RemovedEarly(list, delta, {0});
  }

  // ----- runs -----

  datatype Event =
    | Full(users: seq<UserSpec>, updateOk: bool, startOk: bool)
    | AddDelta(delta: seq<UserSpec>, preFails: set<int>, addOk: bool, updateOk: bool, startOk: bool)
    | RemoveDelta(delta: seq<UserSpec>, removeOk: bool, updateOk: bool)
    | NewConfig(reloadOk: bool, startOk: bool)
    | Halt

  function Step(n: Node, e: Event): Node {
    match e
    case Full(users, updateOk, startOk) => FullSpec(n, users, updateOk, startOk)
    case AddDelta(delta, preFails, addOk, updateOk, startOk) => AddDeltaSpec(n, delta, preFails, addOk, updateOk, startOk)
    case RemoveDelta(delta, removeOk, updateOk) => RemoveDeltaSpec(n, delta, removeOk, updateOk)
    case NewConfig(reloadOk, startOk) => ConfigSpec(n, reloadOk, startOk)
    case Halt => n.(kernel := n.kernel.(running := false))
  }

  /** Full lists name each number once, and no add delta hits the one unsafe case. */
  predicate Expected(n: Node, e: Event) {
    match e
    case Full(users, _, _) => UniqueIds(users)
    case AddDelta(delta, preFails, addOk, updateOk, _) =>
      n.kernel.running ==> AddDeltaSafe(n.desired, delta, preFails, addOk, updateOk)
    case _ => true
  }

  predicate ExpectedRun(n: Node, events: seq<Event>)
    decreases |events|
  {
    events != [] ==> Expected(n, events[0]) && ExpectedRun(Step(n, events[0]), events[1..])
  }

  function After(n: Node, events: seq<Event>): Node
    decreases |events|
  {
    if events == [] then n else After(Step(n, events[0]), events[1..])
  }

  ghost predicate Sound(n: Node) {
    UniqueIds(n.desired) && InStep(n)
  }

  /** An operation ends with the new list or, rolled back, with the old one. */
  lemma AddDeltaList(n: Node, delta: seq<UserSpec>, preFails: set<int>, addOk: bool, updateOk: bool, startOk: bool)
    ensures var list := AddDeltaSpec(n, delta, preFails, addOk, updateOk, startOk).desired;
            list == n.desired || list == Overlay(Overlay([], n.desired), delta)
  {
  }

  lemma RemoveDeltaList(n: Node, delta: seq<UserSpec>, removeOk: bool, updateOk: bool)
    ensures var list := RemoveDeltaSpec(n, delta, removeOk, updateOk).desired;
            list == n.desired || list == Without(n.desired, Ids(delta))
  {
  }

  lemma StepUnique(n: Node, e: Event)
    requires UniqueIds(n.desired) && (e.Full? ==> UniqueIds(e.users))
    ensures UniqueIds(Step(n, e).desired)
  {
    match e
    case AddDelta(delta, preFails, addOk, updateOk, startOk) =>
      AddDeltaList(n, delta, preFails, addOk, updateOk, startOk);
      OverlayRebuilds(n.desired);
      OverlayShape(n.desired, delta);
    case RemoveDelta(delta, removeOk, updateOk) =>
      RemoveDeltaList(n, delta, removeOk, updateOk);
      WithoutUnique(n.desired, Ids(delta));
    case _ =>
  }

  lemma StepSound(n: Node, e: Event)
    requires Sound(n) && Expected(n, e)
    ensures Sound(Step(n, e))
  {
    StepUnique(n, e);
    if n.kernel.running {
      match e
      case Full(users, updateOk, startOk) => FullUpdateAgreesIff(n, users, updateOk, startOk);
      case AddDelta(delta, preFails, addOk, updateOk, startOk) =>
        AddDeltaAgreesIff(n, delta, preFails, addOk, updateOk, startOk);
      case RemoveDelta(delta, removeOk, updateOk) => RemoveDeltaAgrees(n, delta, removeOk, updateOk);
      case _ =>
    }
  }

  /** While the kernel runs, its users are the desired ones, after any expected run of events and failures. */
  lemma {:induction false} RunSound(n: Node, events: seq<Event>)
    requires Sound(n) && ExpectedRun(n, events)
    ensures Sound(After(n, events))
    decreases |events|
  {
    if events != [] {
      StepSound(n, events[0]);
      RunSound(Step(n, events[0]), events[1..]);
    }
  }

  lemma RunsAgree(events: seq<Event>, hasConfig: bool)
    requires ExpectedRun(Node([], STOPPED, hasConfig), events)
    ensures var n := After(Node([], STOPPED, hasConfig), events);
            n.kernel.running ==> forall id :: UuidOf(n.kernel.users, id) == UuidOf(n.desired, id)
  {
    RunSound(Node([], STOPPED, hasConfig), events);
  }

  /** The unsafe case always breaks the agreement. */
  lemma UnexpectedBreaks(n: Node, e: Event)
    requires Sound(n) && e.AddDelta? && !Expected(n, e)
    ensures !InStep(Step(n, e)) && Step(n, e).kernel.running
  {
    AddDeltaAgreesIff(n, e.delta, e.preFails, e.addOk, e.updateOk, e.startOk);
    PreRemoveShows(n.kernel, n.desired, e.delta, e.preFails, 0);
  }

  // ----- when the kernel runs at all -----

  lemma {:induction false} PreRemoveRuns(k: Kernel, desired: seq<UserSpec>, delta: seq<UserSpec>, preFails: set<int>)
    ensures PreRemove(k, desired, delta, preFails).running == k.running
  {
    if delta != [] {
      PreRemoveRuns(k, desired, delta[..|delta| - 1], preFails);
    }
  }

  /** Whether the event leaves a running kernel behind: an instance is only started with a configuration and users. */
  predicate Serves(running: bool, hasConfig: bool, desired: seq<UserSpec>, e: Event) {
    match e
    case Full(users, _, startOk) => running || (users != [] && hasConfig && startOk)
    case AddDelta(delta, _, _, _, startOk) => running || (delta != [] && hasConfig && startOk)
    case RemoveDelta(_, _, _) => running
    case NewConfig(_, startOk) => desired != [] && (running || startOk)
    case Halt => false
  }

  lemma RunsIff(n: Node, e: Event)
    ensures Step(n, e).kernel.running <==> Serves(n.kernel.running, n.hasConfig, n.desired, e)
    ensures Step(n, e).hasConfig <==> n.hasConfig || e.NewConfig?
    ensures e.NewConfig? || e.Halt? ==> Step(n, e).desired == n.desired
  {
    if e.AddDelta? {
      PreRemoveRuns(n.kernel, n.desired, e.delta, e.preFails);
    }
  }

  /** A start that works leaves the kernel running with exactly the given users, a failed one leaves it as it was. */
  lemma StartRuns(n: Node, users: seq<UserSpec>, startOk: bool)
    requires !n.kernel.running
    ensures users != [] && n.hasConfig ==>
              var n2 := FullSpec(n, users, false, startOk);
              && (startOk ==> n2.kernel.running && n2.kernel.users == n2.desired == users)
              && (!startOk ==> n2 == n)
    ensures users == [] || !n.hasConfig ==> FullSpec(n, users, false, startOk) == n.(desired := users)
    ensures n.desired != [] && startOk ==>
              var n2 := ConfigSpec(n, false, true);
              n2.hasConfig && n2.kernel.running && n2.kernel.users == n2.desired == n.desired
  {
  }

  ghost predicate NeverStopped(n: Node, events: seq<Event>)
    decreases |events|
  {
    events != [] ==>
      && !events[0].Halt? && !(events[0].NewConfig? && n.desired == [])
      && NeverStopped(Step(n, events[0]), events[1..])
  }

  /** A kernel stops only when it is told to, or by a configuration that finds no users. */
  lemma {:induction false} KeepsRunning(n: Node, events: seq<Event>)
    requires n.kernel.running && NeverStopped(n, events)
    ensures After(n, events).kernel.running
    decreases |events|
  {
    if events != [] {
      RunsIff(n, events[0]);
      KeepsRunning(Step(n, events[0]), events[1..]);
    }
  }

  // ----- what is undone -----

  /** The list and its hash are the new ones unless every attempt failed. */
  lemma FullUndoneIff(n: Node, users: seq<UserSpec>, updateOk: bool, startOk: bool)
    requires UniqueIds(users)
    ensures FullUndone(n, users, updateOk, startOk) <==>
            !startOk && (if n.kernel.running then !updateOk && !Agree(n.kernel.users, users) else users != [] && n.hasConfig)
    ensures FullSpec(n, users, updateOk, startOk).desired ==
            if FullUndone(n, users, updateOk, startOk) then n.desired else users
  {
    if n.kernel.running {
      UpdateAgreesIff(n.kernel, users, updateOk);
    }
  }

  lemma AddDeltaUndoneIff(n: Node, delta: seq<UserSpec>, preFails: set<int>, addOk: bool, updateOk: bool, startOk: bool)
    requires UniqueIds(n.desired) && InStep(n) && delta != []
    ensures AddDeltaUndone(n, delta, preFails, addOk, updateOk, startOk) <==>
            if n.kernel.running then AddFails(n.desired, delta, preFails, addOk) && !updateOk else n.hasConfig && !startOk
    ensures AddDeltaSpec(n, delta, preFails, addOk, updateOk, startOk).desired ==
            if AddDeltaUndone(n, delta, preFails, addOk, updateOk, startOk) then n.desired else Overlay(n.desired, delta)
  {
    OverlayRebuilds(n.desired);
    if n.kernel.running {
      var early := PreRemove(n.kernel, n.desired, delta, preFails);
      PreRemoveRuns(n.kernel, n.desired, delta, preFails);
      EarlyIds(n, delta, preFails);
      AddFailsIff(early, delta, addOk);
      if AddSpec(early, delta, addOk).failed {
        AddFallsBack(n, delta, preFails, updateOk);
      }
    }
  }

  lemma RemoveDeltaUndoneIff(n: Node, delta: seq<UserSpec>, removeOk: bool, updateOk: bool)
    requires UniqueIds(n.desired) && InStep(n) && delta != []
    ensures RemoveDeltaUndone(n, delta, removeOk, updateOk) <==>
            n.kernel.running && !removeOk && !updateOk && Ids(delta) * Ids(n.desired) != {}
    ensures RemoveDeltaSpec(n, delta, removeOk, updateOk).desired ==
            if RemoveDeltaUndone(n, delta, removeOk, updateOk) then n.desired else Without(n.desired, Ids(delta))
  {
    if n.kernel.running {
      var filtered := Without(n.desired, Ids(delta));
      RemoveWorks(n.kernel, n.desired, delta, removeOk);
      WithoutUnique(n.desired, Ids(delta));
      UpdateAgreesIff(n.kernel, filtered, updateOk);
      if RemoveSpec(n.kernel, delta, removeOk).failed {
        SomethingRemoved(n.desired, Ids(delta));
        if Agree(n.kernel.users, filtered) {
          AgreeIds(n.kernel.users, filtered);
          AgreeIds(n.kernel.users, n.desired);
          assert false;
        }
      }
    }
  }

  // ----- repair -----

  /**
   From every state, also one without agreement, a full list or a configuration
   that gets through ends in agreement. It ends with a running kernel that shows the
   desired users if there is a configuration, the list is not empty, and the kernel
   could be updated or started.
   */
  lemma Repaired(n: Node, e: Event)
    requires (e.Full? && UniqueIds(e.users) && (e.updateOk || e.startOk))
             || (e.NewConfig? && (e.reloadOk || e.startOk))
    ensures var n2 := Step(n, e);
            && (n2.kernel.running ==> forall id :: UuidOf(n2.kernel.users, id) == UuidOf(n2.desired, id))
            && n2.desired == (if e.Full? && (n.kernel.running || e.startOk || e.users == [] || !n.hasConfig)
                              then e.users else n.desired)
    ensures n.kernel.running || e.startOk ==>
              var n2 := Step(n, e);
              && (e.Full? && (n.kernel.running || (n.hasConfig && e.users != [])) ==>
                    n2.kernel.running && n2.kernel.users == n2.desired == e.users)
              && (e.NewConfig? && n.desired != [] ==>
                    n2.kernel.running && n2.kernel.users == n2.desired == n.desired)
  {
    if e.Full? && n.kernel.running {
      FullUpdateAgreesIff(n, e.users, e.updateOk, e.startOk);
    }
  }
}
