/**
 The alive report of the xray dispatcher, as a function of the order in which its
 tables are walked, and exactly when that order does not matter.
 */
module AliveReport {
  import opened Wrappers

  type Table = map<string, map<string, int>>  // user name -> source address -> open TCP connections

  type Report = map<int, set<string>>  // panel user -> addresses

  function Inner(t: Table, email: string): map<string, int> {
    if email in t then t[email] else map[]
  }

  /** Go's map read: an unknown name belongs to user 0, that is to nobody. */
  function UidIn(uids: map<string, int>, email: string): int {
    if email in uids then uids[email] else 0
  }

  function Addresses(r: Report, uid: int): set<string> {
    if uid in r then r[uid] else {}
  }

  /** The name has open connections and belongs to this panel user. */
  predicate Shows(t: Table, uids: map<string, int>, email: string, uid: int) {
    uid != 0 && UidIn(uids, email) == uid && Inner(t, email) != map[]
  }

  // ----- the two walks -----

  /** Each limited name overwrites what is reported for its user. */
  function Overwrite(t: Table, uids: map<string, int>, email: string, r: Report): Report {
    if Shows(t, uids, email, UidIn(uids, email)) then r[UidIn(uids, email) := Inner(t, email).Keys] else r
  }

  /** Each unlimited name adds to it. */
  function Add(t: Table, uids: map<string, int>, email: string, r: Report): Report {
    var uid := UidIn(uids, email);
    if Shows(t, uids, email, uid) then r[uid := Addresses(r, uid) + Inner(t, email).Keys] else r
  }

  function WalkLimited(t: Table, uids: map<string, int>, order: seq<string>): Report {
    if order == [] then map[]
    else
      var n := |order| - 1;
      Overwrite(t, uids, order[n], WalkLimited(t, uids, order[..n]))
  }

  function WalkUnlimited(t: Table, uids: map<string, int>, order: seq<string>, limited: Report): Report {
    if order == [] then limited
    else
      var n := |order| - 1;
      Add(t, uids, order[n], WalkUnlimited(t, uids, order[..n], limited))
  }

  /** Every name of the table, once. */
  predicate Walks(order: seq<string>, t: Table) {
    Elements(order) == t.Keys && Distinct(order)
  }

  function FullReport(limited: Table, unlimited: Table, uids: map<string, int>, first: seq<string>, second: seq<string>): Report {
    WalkUnlimited(unlimited, uids, second, WalkLimited(limited, uids, first))
  }

  // ----- what the walks give -----

  /** The last name in the order that shows the user, or -1. */
  function LastOf(t: Table, uids: map<string, int>, order: seq<string>, uid: int): (k: int)
    ensures -1 <= k < |order|
    ensures k >= 0 ==> Shows(t, uids, order[k], uid)
    ensures forall i :: k < i < |order| ==> !Shows(t, uids, order[i], uid)
  {
    if order == [] then -1
    else if Shows(t, uids, order[|order| - 1], uid) then |order| - 1
    else LastOf(t, uids, order[..|order| - 1], uid)
  }

  /** Of several limited names of one user, the last one walked is reported. */
  lemma {:induction false} LastWins(t: Table, uids: map<string, int>, order: seq<string>, uid: int)
    ensures var k := LastOf(t, uids, order, uid);
            Addresses(WalkLimited(t, uids, order), uid) == if k >= 0 then Inner(t, order[k]).Keys else {}
  {
    if order != [] {
      LastWins(t, uids, order[..|order| - 1], uid);
    }
  }

  /** All addresses of a user's unlimited names. */
  function UnlimitedOf(t: Table, uids: map<string, int>, names: set<string>, uid: int): set<string> {
    set e, ip | e in names && Shows(t, uids, e, uid) && ip in Inner(t, e) :: ip
  }

  lemma {:induction false} UnlimitedAdds(t: Table, uids: map<string, int>, order: seq<string>, limited: Report, uid: int)
    ensures Addresses(WalkUnlimited(t, uids, order, limited), uid)
            == Addresses(limited, uid) + UnlimitedOf(t, uids, Elements(order), uid)
  {
    if order != [] {
      var n := |order| - 1;
      UnlimitedAdds(t, uids, order[..n], limited, uid);
      assert order == order[..n] + [order[n]];
      assert Elements(order) == Elements(order[..n]) + {order[n]};
    }
  }

  /** Some connection of the panel user is open from this address. */
  ghost predicate OpenFor(limited: Table, unlimited: Table, uids: map<string, int>, uid: int, ip: string) {
    exists e :: uid != 0 && UidIn(uids, e) == uid && (ip in Inner(limited, e) || ip in Inner(unlimited, e))
  }

  ghost predicate Exact(limited: Table, unlimited: Table, uids: map<string, int>, r: Report) {
    forall uid, ip :: ip in Addresses(r, uid) <==> OpenFor(limited, unlimited, uids, uid, ip)
  }

  /** Nothing is ever reported that is not open. */
  lemma ReportedIsOpen(
    limited: Table, unlimited: Table, uids: map<string, int>, first: seq<string>, second: seq<string>, uid: int, ip: string)
    requires ip in Addresses(FullReport(limited, unlimited, uids, first, second), uid)
    ensures OpenFor(limited, unlimited, uids, uid, ip)
  {
    LastWins(limited, uids, first, uid);
    UnlimitedAdds(unlimited, uids, second, WalkLimited(limited, uids, first), uid);
    if ip in UnlimitedOf(unlimited, uids, Elements(second), uid) {
      var e :| e in Elements(second) && Shows(unlimited, uids, e, uid) && ip in Inner(unlimited, e);
      assert UidIn(uids, e) == uid;
    } else {
      assert UidIn(uids, first[LastOf(limited, uids, first, uid)]) == uid;
    }
  }

  // ----- when the order does not matter -----

  /** The addresses of a limited name are also those of any other limited name of its user, or of an unlimited one. */
  ghost predicate NoneShadowed(limited: Table, unlimited: Table, uids: map<string, int>) {
    forall e, f, ip :: Shadows(limited, uids, e, f) && ip in limited[e] ==>
      ip in limited[f] || ip in UnlimitedOf(unlimited, uids, unlimited.Keys, uids[f])
  }

  /** The second name overwrites the first if it is walked later. */
  predicate Shadows(limited: Table, uids: map<string, int>, e: string, f: string) {
    && e in limited && f in limited && e in uids && f in uids
    && uids[e] == uids[f] != 0 && limited[f] != map[]
  }

  ghost predicate ExactInEveryOrder(limited: Table, unlimited: Table, uids: map<string, int>) {
    forall first, second :: Walks(first, limited) && Walks(second, unlimited) ==>
      Exact(limited, unlimited, uids, FullReport(limited, unlimited, uids, first, second))
  }

  lemma OpenIsReported(
    limited: Table, unlimited: Table, uids: map<string, int>, first: seq<string>, second: seq<string>, uid: int, ip: string)
    requires NoneShadowed(limited, unlimited, uids) && Walks(first, limited) && Walks(second, unlimited)
    requires OpenFor(limited, unlimited, uids, uid, ip)
    ensures ip in Addresses(FullReport(limited, unlimited, uids, first, second), uid)
  {
    var e :| uid != 0 && UidIn(uids, e) == uid && (ip in Inner(limited, e) || ip in Inner(unlimited, e));
    LastWins(limited, uids, first, uid);
    UnlimitedAdds(unlimited, uids, second, WalkLimited(limited, uids, first), uid);
    if ip in Inner(unlimited, e) {
      assert Shows(unlimited, uids, e, uid) && e in Elements(second);
    } else {
      assert e in Elements(first) && Shows(limited, uids, e, uid);
      var f := first[LastOf(limited, uids, first, uid)];
      assert f in Elements(first) && Shadows(limited, uids, e, f);
    }
  }

  lemma {:induction false} SomeOrder(names: set<string>) returns (order: seq<string>)
    ensures Elements(order) == names && Distinct(order)
    decreases |names|
  {
    if names == {} {
      order := [];
    } else {
      var e := SomeMember(names);
      var rest := SomeOrder(names - {e});
      order := rest + [e];
      assert e !in Elements(rest);
      assert forall i :: 0 <= i < |rest| ==> rest[i] in Elements(rest);
      assert Elements(order) == Elements(rest) + {e};
    }
  }

  /** Two limited names of one user with different addresses: an order that ends with the second loses the first's. */
  lemma ShadowedIsLost(limited: Table, unlimited: Table, uids: map<string, int>, e: string, f: string, ip: string)
    returns (first: seq<string>, second: seq<string>)
    requires Shadows(limited, uids, e, f) && ip in limited[e] && ip !in limited[f]
    requires ip !in UnlimitedOf(unlimited, uids, unlimited.Keys, uids[f])
    ensures Walks(first, limited) && Walks(second, unlimited)
    ensures OpenFor(limited, unlimited, uids, uids[e], ip)
    ensures ip !in Addresses(FullReport(limited, unlimited, uids, first, second), uids[e])
  {
    var rest := SomeOrder(limited.Keys - {f});
    first := rest + [f];
    second := SomeOrder(unlimited.Keys);
    assert forall i :: 0 <= i < |rest| ==> rest[i] in Elements(rest);
    assert Elements(first) == Elements(rest) + {f};
    assert UidIn(uids, e) == uids[e];
    assert Shows(limited, uids, first[|rest|], uids[e]);
    LastWins(limited, uids, first, uids[e]);
    UnlimitedAdds(unlimited, uids, second, WalkLimited(limited, uids, first), uids[e]);
  }

  /** The report is exact whatever the order of the walks if and only if no limited name shadows another one's address. */
  lemma ExactIff(limited: Table, unlimited: Table, uids: map<string, int>)
    ensures ExactInEveryOrder(limited, unlimited, uids) <==> NoneShadowed(limited, unlimited, uids)
  {
    if NoneShadowed(limited, unlimited, uids) {
      forall first, second | Walks(first, limited) && Walks(second, unlimited)
        ensures Exact(limited, unlimited, uids, FullReport(limited, unlimited, uids, first, second))
      {
        ExactThere(limited, unlimited, uids, first, second);
      }
    } else {
      var e, f, ip :| Shadows(limited, uids, e, f) && ip in limited[e]
        && ip !in limited[f] && ip !in UnlimitedOf(unlimited, uids, unlimited.Keys, uids[f]);
      var first, second := ShadowedIsLost(limited, unlimited, uids, e, f, ip);
    }
  }

  lemma ExactThere(limited: Table, unlimited: Table, uids: map<string, int>, first: seq<string>, second: seq<string>)
    requires NoneShadowed(limited, unlimited, uids) && Walks(first, limited) && Walks(second, unlimited)
    ensures Exact(limited, unlimited, uids, FullReport(limited, unlimited, uids, first, second))
  {
    var r := FullReport(limited, unlimited, uids, first, second);
    forall uid, ip
      ensures ip in Addresses(r, uid) <==> OpenFor(limited, unlimited, uids, uid, ip)
    {
      if ip in Addresses(r, uid) {
        ReportedIsOpen(limited, unlimited, uids, first, second, uid, ip);
      }
      if OpenFor(limited, unlimited, uids, uid, ip) {
        OpenIsReported(limited, unlimited, uids, first, second, uid, ip);
      }
    }
  }

  /** No two limited names that have entries belong to one panel user; further names without entries do not matter. */
  predicate OneNameEach(limited: Table, uids: map<string, int>) {
    forall e, f :: e in limited && f in limited && e in uids && f in uids && uids[e] == uids[f] != 0 ==> e == f
  }

  lemma OneNameShadowsNothing(limited: Table, unlimited: Table, uids: map<string, int>)
    requires OneNameEach(limited, uids)
    ensures NoneShadowed(limited, unlimited, uids)
  {
  }
}
