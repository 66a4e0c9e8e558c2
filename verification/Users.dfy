/** User lists and the delta overlay. The lists are ordered; a user is identified by its number. */
module Users {
  import opened Wrappers

  datatype UserSpec = UserSpec(id: int, uuid: string, speedLimit: int, deviceLimit: int)

  function Ids(users: seq<UserSpec>): set<int> {
    set u | u in users :: u.id
  }

  predicate UniqueIds(users: seq<UserSpec>) {
    forall i, j :: 0 <= i < j < |users| ==> users[i].id != users[j].id
  }

  /** The last position of a number, or -1. */
  function Find(users: seq<UserSpec>, id: int): (k: int)
    ensures -1 <= k < |users|
    ensures k >= 0 ==> users[k].id == id
    ensures forall i :: k < i < |users| ==> users[i].id != id
  {
    if users == [] then -1
    else if users[|users| - 1].id == id then |users| - 1
    else Find(users[..|users| - 1], id)
  }

  function Lookup(users: seq<UserSpec>, id: int): Option<UserSpec> {
    var k := Find(users, id);
    if k >= 0 then Some(users[k]) else None
  }

  /** Overwrite in place, or append. */
  function Put(users: seq<UserSpec>, u: UserSpec): seq<UserSpec> {
    var k := Find(users, u.id);
    if k >= 0 then users[k := u] else users + [u]
  }

  /** What an "add" delta means: its entries one after the other. */
  function Overlay(users: seq<UserSpec>, delta: seq<UserSpec>): seq<UserSpec> {
    if delta == [] then users
    else Put(Overlay(users, delta[..|delta| - 1]), delta[|delta| - 1])
  }

  /** What a "remove" delta means: every listed number goes, the order of the rest stays. */
  function Without(users: seq<UserSpec>, ids: set<int>): seq<UserSpec> {
    if users == [] then []
    else
      var n := |users| - 1;
      Without(users[..n], ids) + if users[n].id in ids then [] else [users[n]]
  }

  lemma FindUnique(users: seq<UserSpec>, k: nat)
    requires UniqueIds(users) && k < |users|
    ensures Find(users, users[k].id) == k
  {
    var f := Find(users, users[k].id);
    assert f >= 0 ==> users[f].id == users[k].id;
  }

  lemma FindNone(users: seq<UserSpec>, id: int)
    requires forall i :: 0 <= i < |users| ==> users[i].id != id
    ensures Find(users, id) == -1
  {
  }

  lemma FindIds(users: seq<UserSpec>, id: int)
    ensures Find(users, id) >= 0 <==> id in Ids(users)
  {
    var k := Find(users, id);
    assert k >= 0 ==> users[k] in users;
    if id in Ids(users) {
      var u :| u in users && u.id == id;
      var i :| 0 <= i < |users| && users[i] == u;
    }
  }

  lemma IdsAt(users: seq<UserSpec>, id: int)
    ensures id in Ids(users) <==> exists k :: 0 <= k < |users| && users[k].id == id
  {
    FindIds(users, id);
    if k :| 0 <= k < |users| && users[k].id == id {
      assert users[k] in users;
    }
  }

  // ----- the overlay -----

  lemma PutShape(users: seq<UserSpec>, u: UserSpec)
    ensures UniqueIds(users) ==> UniqueIds(Put(users, u))
    ensures |users| <= |Put(users, u)|
    ensures forall i :: 0 <= i < |users| ==> Put(users, u)[i].id == users[i].id
    ensures forall id :: Lookup(Put(users, u), id) == if id == u.id then Some(u) else Lookup(users, id)
  {
    var p, k := Put(users, u), Find(users, u.id);
    forall id
      ensures Lookup(p, id) == if id == u.id then Some(u) else Lookup(users, id)
    {
      PutFind(users, u, id);
    }
  }

  /** No number moves; a new one comes last. */
  lemma PutFind(users: seq<UserSpec>, u: UserSpec, id: int)
    ensures Find(Put(users, u), id) == if id == u.id && Find(users, id) == -1 then |users| else Find(users, id)
  {
    var p, k := Put(users, u), Find(users, u.id);
    if k >= 0 {
      SameFind(users, p, id, Find(p, id));
    } else {
      assert p[..|users|] == users && p[|users|] == u;
    }
  }

  lemma SameFind(users: seq<UserSpec>, p: seq<UserSpec>, id: int, f: int)
    requires f == Find(p, id) && |users| <= |p|
    requires forall i :: 0 <= i < |users| ==> p[i].id == users[i].id
    requires forall i :: |users| <= i < |p| ==> p[i].id != id
    ensures f == Find(users, id)
  {
    var g := Find(users, id);
    assert f >= 0 ==> p[f].id == id;
    assert g >= 0 ==> users[g].id == id && p[g].id == id;
  }

  /** Positions and uniqueness are kept; each number shows its last entry in the delta, or its old one. */
  lemma {:induction false} OverlayShape(users: seq<UserSpec>, delta: seq<UserSpec>)
    ensures UniqueIds(users) ==> UniqueIds(Overlay(users, delta))
    ensures |users| <= |Overlay(users, delta)|
    ensures forall i :: 0 <= i < |users| ==> Overlay(users, delta)[i].id == users[i].id
    ensures forall id :: Lookup(Overlay(users, delta), id)
                         == if Lookup(delta, id).Some? then Lookup(delta, id) else Lookup(users, id)
  {
    if delta != [] {
      var n := |delta| - 1;
      OverlayShape(users, delta[..n]);
      PutShape(Overlay(users, delta[..n]), delta[n]);
      forall id
        ensures Lookup(delta, id) == if delta[n].id == id then Some(delta[n]) else Lookup(delta[..n], id)
      {
      }
    }
  }

  lemma LookupIds(users: seq<UserSpec>)
    ensures forall id :: Lookup(users, id).Some? <==> id in Ids(users)
  {
    forall id
      ensures Lookup(users, id).Some? <==> id in Ids(users)
    {
      FindIds(users, id);
    }
  }

  lemma OverlayIds(users: seq<UserSpec>, delta: seq<UserSpec>)
    ensures Ids(Overlay(users, delta)) == Ids(users) + Ids(delta)
  {
    OverlayShape(users, delta);
    LookupIds(users);
    LookupIds(delta);
    LookupIds(Overlay(users, delta));
  }

  /** Lists that agree position by position on the numbers, and on what each number shows, are equal. */
  lemma SameList(a: seq<UserSpec>, b: seq<UserSpec>)
    requires UniqueIds(a) && UniqueIds(b) && |a| == |b|
    requires forall i :: 0 <= i < |a| ==> a[i].id == b[i].id
    requires forall i :: 0 <= i < |a| ==> Lookup(a, a[i].id) == Lookup(b, a[i].id)
    ensures a == b
  {
    forall i | 0 <= i < |a|
      ensures a[i] == b[i]
    {
      FindUnique(a, i);
      FindUnique(b, i);
      assert Lookup(a, a[i].id) == Some(a[i]) && Lookup(b, a[i].id) == Some(b[i]);
    }
  }

  lemma {:induction false} OverlayKnown(users: seq<UserSpec>, delta: seq<UserSpec>)
    requires Ids(delta) <= Ids(users)
    ensures |Overlay(users, delta)| == |users|
  {
    if delta != [] {
      var n := |delta| - 1;
      assert forall u :: u in delta[..n] ==> u in delta;
      OverlayKnown(users, delta[..n]);
      OverlayIds(users, delta[..n]);
      assert delta[n].id in Ids(delta);
      FindIds(Overlay(users, delta[..n]), delta[n].id);
    }
  }

  /** Applying a delta twice is applying it once, also when it lists a number several times. */
  lemma OverlayIdempotent(users: seq<UserSpec>, delta: seq<UserSpec>)
    requires UniqueIds(users)
    ensures Overlay(Overlay(users, delta), delta) == Overlay(users, delta)
  {
    var once := Overlay(users, delta);
    OverlayShape(users, delta);
    OverlayShape(once, delta);
    OverlayIds(users, delta);
    OverlayKnown(once, delta);
    SameList(Overlay(once, delta), once);
  }

  /** Rebuilding a list of unique numbers entry by entry gives it back. */
  lemma {:induction false} OverlayRebuilds(users: seq<UserSpec>)
    requires UniqueIds(users)
    ensures Overlay([], users) == users
  {
    if users != [] {
      var n := |users| - 1;
      OverlayRebuilds(users[..n]);
      assert users == users[..n] + [users[n]];
      FindNone(users[..n], users[n].id);
    }
  }

  // ----- removal -----

  lemma {:induction false} WithoutMembers(users: seq<UserSpec>, ids: set<int>)
    ensures forall u :: u in Without(users, ids) <==> u in users && u.id !in ids
  {
    if users != [] {
      var n := |users| - 1;
      WithoutMembers(users[..n], ids);
      assert users == users[..n] + [users[n]];
    }
  }

  /** `part` are the entries of `users` at the increasing positions `at`. */
  predicate Picks(users: seq<UserSpec>, part: seq<UserSpec>, at: seq<nat>) {
    && |at| == |part|
    && (forall k :: 0 <= k < |at| ==> at[k] < |users| && part[k] == users[at[k]])
    && (forall k, l :: 0 <= k < l < |at| ==> at[k] < at[l])
  }

  lemma PicksLonger(users: seq<UserSpec>, u: UserSpec, part: seq<UserSpec>, at: seq<nat>)
    requires Picks(users, part, at)
    ensures Picks(users + [u], part, at) && Picks(users + [u], part + [u], at + [|users|])
  {
  }

  /** The users that stay do so in their order. */
  lemma {:induction false} WithoutOrder(users: seq<UserSpec>, ids: set<int>) returns (kept: seq<nat>)
    ensures Picks(users, Without(users, ids), kept)
    ensures forall i :: 0 <= i < |users| ==> (i in kept <==> users[i].id !in ids)
  {
    if users == [] {
      return [];
    }
    var n := |users| - 1;
    var before := WithoutOrder(users[..n], ids);
    assert users == users[..n] + [users[n]];
    PicksLonger(users[..n], users[n], Without(users[..n], ids), before);
    assert n !in before;
    assert forall i :: 0 <= i < n ==> (i in before <==> users[..n][i].id !in ids);
    kept := if users[n].id in ids then before else before + [n];
    assert forall i :: i in before + [n] <==> i in before || i == n;
  }

  lemma {:induction false} WithoutUnique(users: seq<UserSpec>, ids: set<int>)
    requires UniqueIds(users)
    ensures UniqueIds(Without(users, ids))
  {
    if users != [] {
      var n := |users| - 1;
      var rest := Without(users[..n], ids);
      WithoutUnique(users[..n], ids);
      WithoutMembers(users[..n], ids);
      forall i | 0 <= i < |rest|
        ensures rest[i].id != users[n].id
      {
        assert rest[i] in users[..n];
      }
    }
  }

  lemma {:induction false} WithoutAbsent(users: seq<UserSpec>, ids: set<int>)
    requires forall u :: u in users ==> u.id !in ids
    ensures Without(users, ids) == users
  {
    if users != [] {
      var n := |users| - 1;
      var before := users[..n];
      assert users == before + [users[n]];
      assert users[n] in users && forall u :: u in before ==> u in users;
      WithoutAbsent(before, ids);
      assert Without(users, ids) == before + [users[n]];
    }
  }

  lemma WithoutIds(users: seq<UserSpec>, ids: set<int>)
    ensures Ids(Without(users, ids)) == Ids(users) - ids
  {
    WithoutMembers(users, ids);
  }

  /** Removing twice is removing once. */
  lemma WithoutIdempotent(users: seq<UserSpec>, ids: set<int>)
    ensures Without(Without(users, ids), ids) == Without(users, ids)
  {
    WithoutMembers(users, ids);
    WithoutAbsent(Without(users, ids), ids);
  }

  // ----- pieces of a list -----

  lemma LookupPush(list: seq<UserSpec>, u: UserSpec, id: int)
    ensures Lookup(list + [u], id) == if u.id == id then Some(u) else Lookup(list, id)
  {
    assert (list + [u])[..|list|] == list;
  }

  lemma {:induction false} LookupConcat(a: seq<UserSpec>, b: seq<UserSpec>, id: int)
    ensures Lookup(a + b, id) == if Lookup(b, id).Some? then Lookup(b, id) else Lookup(a, id)
  {
    if b == [] {
      assert a + b == a;
    } else {
      var n := |b| - 1;
      LookupConcat(a, b[..n], id);
      assert a + b == (a + b[..n]) + [b[n]] && b == b[..n] + [b[n]];
      LookupPush(a + b[..n], b[n], id);
      LookupPush(b[..n], b[n], id);
    }
  }

  lemma {:induction false} WithoutShows(list: seq<UserSpec>, ids: set<int>, id: int)
    ensures Lookup(Without(list, ids), id) == if id in ids then None else Lookup(list, id)
  {
    if list != [] {
      var n := |list| - 1;
      WithoutShows(list[..n], ids, id);
      assert list == list[..n] + [list[n]];
      LookupPush(list[..n], list[n], id);
      if list[n].id in ids {
        assert Without(list, ids) == Without(list[..n], ids);
      } else {
        LookupPush(Without(list[..n], ids), list[n], id);
      }
    }
  }

  // ----- the list as a map -----

  /** One entry per number, the last of them. */
  function ById(list: seq<UserSpec>): map<int, UserSpec> {
    map id | id in Ids(list) && Lookup(list, id).Some? :: Lookup(list, id).value
  }

  predicate Keyed(users: map<int, UserSpec>) {
    forall id | id in users :: users[id].id == id
  }

  lemma ByIdMembers(list: seq<UserSpec>)
    ensures Keyed(ById(list)) && ById(list).Keys == Ids(list)
    ensures forall id :: id in ById(list) ==> ById(list)[id] in list
    ensures UniqueIds(list) ==> forall u :: u in list ==> u.id in ById(list) && ById(list)[u.id] == u
  {
    forall id | id in Ids(list)
      ensures Lookup(list, id).Some?
    {
      FindIds(list, id);
    }
    if UniqueIds(list) {
      forall u | u in list
        ensures u.id in ById(list) && ById(list)[u.id] == u
      {
        var k :| 0 <= k < |list| && list[k] == u;
        FindUnique(list, k);
      }
    }
  }

  lemma ByIdKeys(list: seq<UserSpec>)
    ensures ById(list).Keys == Ids(list)
    ensures Keyed(ById(list))
  {
    ByIdMembers(list);
  }

  method IndexById(list: seq<UserSpec>) returns (index: map<int, UserSpec>)
    ensures index == ById(list)
  {
    index := map[];
    for i := 0 to |list|
      invariant index == ById(list[..i])
    {
      ByIdPush(list[..i], list[i]);
      assert list[..i + 1] == list[..i] + [list[i]];
      index := index[list[i].id := list[i]];
    }
    assert list[..|list|] == list;
  }

  lemma ByIdPush(list: seq<UserSpec>, u: UserSpec)
    ensures ById(list + [u]) == ById(list)[u.id := u]
  {
    var longer := list + [u];
    assert longer[..|list|] == list && longer[|list|] == u;
    LookupIds(list);
    LookupIds(longer);
    forall id
      ensures Lookup(longer, id) == if id == u.id then Some(u) else Lookup(list, id)
    {
    }
  }
}
