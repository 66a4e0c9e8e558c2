/** The two implementations of a user delta: the mailbox edits a cloned slice, the desired-state controller rebuilds. */
module UserDelta {
  import opened Wrappers
  import opened Users

  /** An index of positions as the loops keep it: the last position of every number. */
  ghost predicate IndexOk(index: map<int, int>, users: seq<UserSpec>) {
    forall id :: if id in index then index[id] == Find(users, id) >= 0 else Find(users, id) == -1
  }

  lemma IndexPut(index: map<int, int>, users: seq<UserSpec>, u: UserSpec)
    requires IndexOk(index, users)
    ensures IndexOk(if u.id in index then index else index[u.id := |users|], Put(users, u))
  {
    forall id
      ensures Find(Put(users, u), id) == if id == u.id && id !in index then |users| else Find(users, id)
    {
      PutFind(users, u, id);
    }
  }

  lemma IndexAppend(index: map<int, int>, users: seq<UserSpec>, u: UserSpec)
    requires IndexOk(index, users)
    ensures IndexOk(index[u.id := |users|], users + [u])
  {
    assert (users + [u])[..|users|] == users;
  }

  /** applyUserDelta: overwrite, append and compact in a clone. */
  method ApplyUserDelta(users: seq<UserSpec>, action: string, delta: seq<UserSpec>) returns (ok: bool, result: seq<UserSpec>)
    ensures ok == (action == "add" || action == "remove")
    ensures action == "add" ==> result == Overlay(users, delta)
    ensures action == "remove" ==> result == Without(users, Ids(delta))
    ensures !ok ==> result == users
  {
    if action == "add" {
      result := AddDelta(users, delta);
      return true, result;
    } else if action == "remove" {
      result := RemoveDelta(users, delta);
      return true, result;
    }
    return false, users;
  }

  method IndexPositions(users: seq<UserSpec>) returns (index: map<int, int>)
    ensures IndexOk(index, users)
  {
    index := map[];
    for i := 0 to |users|
      invariant IndexOk(index, users[..i])
    {
      IndexAppend(index, users[..i], users[i]);
      assert users[..i + 1] == users[..i] + [users[i]];
      index := index[users[i].id := i];
    }
    assert users[..|users|] == users;
  }

  /** One entry of an "add" delta, on the first `n` slots of the clone. */
  method PutInPlace(current: array<UserSpec>, n: nat, index: map<int, int>, user: UserSpec) returns (n': nat, index': map<int, int>)
    requires n < current.Length && IndexOk(index, current[..n])
    modifies current
    ensures n <= n' <= n + 1 && current[..n'] == Put(old(current[..n]), user)
    ensures IndexOk(index', current[..n'])
  {
    IndexPut(index, current[..n], user);
    if user.id in index {
      current[index[user.id]] := user;
      return n, index;
    }
    current[n] := user;
    assert current[..n + 1] == old(current[..n]) + [user];
    return n + 1, index[user.id := n];
  }

  method AddDelta(users: seq<UserSpec>, delta: seq<UserSpec>) returns (result: seq<UserSpec>)
    ensures result == Overlay(users, delta)
  {
    var index := IndexPositions(users);
    var current := new UserSpec[|users| + |delta|](i requires 0 <= i < |users| + |delta| =>
      if i < |users| then users[i] else delta[0]);
    var n := |users|;
    assert current[..n] == users;
    for j := 0 to |delta|
      invariant |users| <= n <= |users| + j
      invariant current[..n] == Overlay(users, delta[..j])
      invariant IndexOk(index, current[..n])
    {
      assert delta[..j + 1][..j] == delta[..j];
      n, index := PutInPlace(current, n, index, delta[j]);
    }
    assert delta[..|delta|] == delta;
    result := current[..n];
  }

  method CollectIds(delta: seq<UserSpec>) returns (ids: set<int>)
    ensures ids == Ids(delta)
  {
    ids := {};
    for i := 0 to |delta|
      invariant ids == Ids(delta[..i])
    {
      assert delta[..i + 1] == delta[..i] + [delta[i]];
      ids := ids + {delta[i].id};
    }
    assert delta[..|delta|] == delta;
  }

  method RemoveDelta(users: seq<UserSpec>, delta: seq<UserSpec>) returns (result: seq<UserSpec>)
    ensures result == Without(users, Ids(delta))
  {
    var removeIDs := CollectIds(delta);
    var current := new UserSpec[|users|](i requires 0 <= i < |users| => users[i]);
    var kept := 0;
    for r := 0 to |users|
      invariant kept <= r
      invariant current[..kept] == Without(users[..r], removeIDs)
      invariant forall i :: r <= i < |users| ==> current[i] == users[i]
    {
      assert users[..r + 1][..r] == users[..r];
      var user := current[r];
      assert user == users[r];
      if user.id !in removeIDs {
        ghost var before := current[..kept];
        current[kept] := user;
        kept := kept + 1;
        assert current[..kept] == before + [user];
      }
    }
    assert users[..|users|] == users;
    result := current[..kept];
  }

  /** Merge: overlay keyed by number, keeping the first appearance's place; a nil delta returns the base as it is. */
  method Merge(base: seq<UserSpec>, delta: Option<seq<UserSpec>>) returns (out: seq<UserSpec>)
    ensures out == if delta == None then base else Overlay(Overlay([], base), delta.value)
  {
    if delta == None {
      return base;
    }
    ghost var none: seq<UserSpec> := [];
    var index, order := KeyAll(base, map[], [], none);
    index, order := KeyAll(delta.value, index, order, Overlay([], base));
    ghost var list := Overlay(Overlay([], base), delta.value);
    out := [];
    for i := 0 to |order|
      invariant out == list[..i]
    {
      out := out + [index[order[i]]];
    }
  }

  /** The loop that enters one list into the map and the order. */
  method KeyAll(entries: seq<UserSpec>, index0: map<int, UserSpec>, order0: seq<int>, ghost list: seq<UserSpec>)
    returns (index: map<int, UserSpec>, order: seq<int>)
    requires InOrder(list, index0, order0)
    ensures InOrder(Overlay(list, entries), index, order)
  {
    index, order := index0, order0;
    for i := 0 to |entries|
      invariant InOrder(Overlay(list, entries[..i]), index, order)
    {
      assert entries[..i + 1][..i] == entries[..i];
      index, order := KeyOne(entries[i], index, order, Overlay(list, entries[..i]));
    }
    assert entries[..|entries|] == entries;
  }

  method KeyOne(user: UserSpec, index0: map<int, UserSpec>, order0: seq<int>, ghost list: seq<UserSpec>)
    returns (index: map<int, UserSpec>, order: seq<int>)
    requires InOrder(list, index0, order0)
    ensures InOrder(Put(list, user), index, order)
  {
    InOrderPut(list, index0, order0, user);
    order := if user.id in index0 then order0 else order0 + [user.id];
    index := index0[user.id := user];
  }

  /** A list of unique numbers, held as a map and the order of its keys. */
  ghost predicate InOrder(list: seq<UserSpec>, index: map<int, UserSpec>, order: seq<int>) {
    && UniqueIds(list)
    && |order| == |list|
    && (forall i :: 0 <= i < |list| ==> order[i] == list[i].id && order[i] in index && index[order[i]] == list[i])
    && (forall id :: id in index ==> Find(list, id) >= 0)
  }

  lemma InOrderOverwrite(list: seq<UserSpec>, index: map<int, UserSpec>, order: seq<int>, u: UserSpec)
    requires InOrder(list, index, order) && u.id in index
    ensures InOrder(Put(list, u), index[u.id := u], order)
  {
    var k := Find(list, u.id);
    var p := list[k := u];
    assert order[k] == u.id;
    forall id | id in index
      ensures Find(p, id) >= 0
    {
      PutFind(list, u, id);
    }
  }

  lemma InOrderAppend(list: seq<UserSpec>, index: map<int, UserSpec>, order: seq<int>, u: UserSpec)
    requires InOrder(list, index, order) && u.id !in index
    ensures InOrder(Put(list, u), index[u.id := u], order + [u.id])
  {
    forall i | 0 <= i < |list|
      ensures list[i].id != u.id
    {
      assert order[i] in index;
    }
    FindNone(list, u.id);
    var p := list + [u];
    forall id | id in index[u.id := u]
      ensures Find(p, id) >= 0
    {
      PutFind(list, u, id);
    }
  }

  lemma InOrderPut(list: seq<UserSpec>, index: map<int, UserSpec>, order: seq<int>, u: UserSpec)
    requires InOrder(list, index, order)
    ensures InOrder(Put(list, u), index[u.id := u], if u.id in index then order else order + [u.id])
  {
    if u.id in index {
      InOrderOverwrite(list, index, order, u);
    } else {
      InOrderAppend(list, index, order, u);
    }
  }

  method Subtract(base: seq<UserSpec>, delta: seq<UserSpec>) returns (out: seq<UserSpec>)
    ensures out == Without(base, Ids(delta))
  {
    if |base| == 0 || |delta| == 0 {
      WithoutAbsent(base, Ids(delta));
      return base;
    }
    var remove := CollectIds(delta);
    out := [];
    for i := 0 to |base|
      invariant out == Without(base[..i], remove)
    {
      assert base[..i + 1][..i] == base[..i];
      if base[i].id !in remove {
        out := out + [base[i]];
      }
    }
    assert base[..|base|] == base;
  }

  /** On a base of unique numbers both implementations return the same list. */
  method BothAgree(base: seq<UserSpec>, delta: seq<UserSpec>) returns (edited: seq<UserSpec>, merged: seq<UserSpec>)
    requires UniqueIds(base)
    ensures edited == merged && UniqueIds(merged)
    ensures Overlay(merged, delta) == merged
  {
    var ok;
    ok, edited := ApplyUserDelta(base, "add", delta);
    merged := Merge(base, Some(delta));
    OverlayRebuilds(base);
    OverlayShape(base, delta);
    OverlayIdempotent(base, delta);
  }

  /** And so they do on removal, on any base; a second application changes nothing. */
  method BothAgreeOnRemoval(base: seq<UserSpec>, delta: seq<UserSpec>) returns (edited: seq<UserSpec>, left: seq<UserSpec>)
    ensures edited == left && (UniqueIds(base) ==> UniqueIds(left))
    ensures forall u :: u in left <==> u in base && u.id !in Ids(delta)
    ensures Without(left, Ids(delta)) == left
  {
    var ok;
    ok, edited := ApplyUserDelta(base, "remove", delta);
    left := Subtract(base, delta);
    WithoutMembers(base, Ids(delta));
    WithoutIdempotent(base, Ids(delta));
    if UniqueIds(base) {
      WithoutUnique(base, Ids(delta));
    }
  }
}
