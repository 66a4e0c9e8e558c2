/** The names under which the xray kernel makes its users known to the dispatcher: two for each. */
module XrayLimits {
  import opened Wrappers
  import opened Users
  import opened AliveReport
  import opened DeviceGate
  import X = XrayDispatcher

  datatype Limits = Limits(emailToUID: map<string, int>, deviceLimits: map<string, int>)

  /** The name built from the number, and the UUID. `email` is that construction. */
  function Enter(l: Limits, u: UserSpec, email: int -> string): Limits {
    Limits(
      l.emailToUID[email(u.id) := u.id][u.uuid := u.id],
      if u.deviceLimit > 0 then l.deviceLimits[email(u.id) := u.deviceLimit][u.uuid := u.deviceLimit] else l.deviceLimits)
  }

  function LimitsOf(users: seq<UserSpec>, email: int -> string): Limits {
    if users == [] then Limits(map[], map[])
    else Enter(LimitsOf(users[..|users| - 1], email), users[|users| - 1], email)
  }

  method UpdateDispatcherLimits(d: X.LimitDispatcher, users: seq<UserSpec>, email: int -> string)
    modifies d`emailToUID, d`deviceLimits
    ensures Limits(d.emailToUID, d.deviceLimits) == LimitsOf(users, email)
    ensures old(d.Valid()) && X.KeepsClasses(d.View(), old(d.deviceLimits), d.deviceLimits) ==> d.Valid()
  {
    var emailToUID: map<string, int>, deviceLimits: map<string, int> := map[], map[];
    for i := 0 to |users|
      invariant Limits(emailToUID, deviceLimits) == LimitsOf(users[..i], email)
    {
      var u := users[i];
      assert users[..i + 1][..i] == users[..i];
      emailToUID := emailToUID[email(u.id) := u.id];
      emailToUID := emailToUID[u.uuid := u.id];
      if u.deviceLimit > 0 {
        deviceLimits := deviceLimits[email(u.id) := u.deviceLimit];
        deviceLimits := deviceLimits[u.uuid := u.deviceLimit];
      }
    }
    assert users[..|users|] == users;
    d.UpdateLimits(emailToUID, deviceLimits);
  }

  /** All names are different: numbers, UUIDs, and one kind from the other. */
  ghost predicate Plain(users: seq<UserSpec>, email: int -> string) {
    && (forall i, j :: email(i) == email(j) ==> i == j)
    && (forall u, v :: u in users && v in users ==> u.uuid != email(v.id))
    && (forall i, j :: 0 <= i < j < |users| ==> users[i].id != users[j].id && users[i].uuid != users[j].uuid)
  }

  predicate NameOf(u: UserSpec, email: int -> string, name: string) {
    name == email(u.id) || name == u.uuid
  }

  /** What the tables say about one name of this user. */
  predicate Tells(l: Limits, name: string, u: UserSpec) {
    && name in l.emailToUID && l.emailToUID[name] == u.id
    && (if u.deviceLimit > 0 then name in l.deviceLimits && l.deviceLimits[name] == u.deviceLimit
        else name !in l.deviceLimits)
  }

  lemma EnterTells(l: Limits, u: UserSpec, email: int -> string, name: string)
    requires NameOf(u, email, name) && name !in l.deviceLimits
    ensures Tells(Enter(l, u, email), name, u)
  {
  }

  lemma EnterKeeps(l: Limits, u: UserSpec, email: int -> string, name: string, v: UserSpec)
    requires Tells(l, name, v) && !NameOf(u, email, name)
    ensures Tells(Enter(l, u, email), name, v)
  {
  }

  lemma NamesApart(users: seq<UserSpec>, email: int -> string, k: nat, n: nat, name: string)
    requires Plain(users, email) && k < n < |users| && NameOf(users[k], email, name)
    ensures !NameOf(users[n], email, name)
  {
    assert users[k] in users && users[n] in users;
  }

  /** Each user is known by exactly its two names, with its own number and limit under both. */
  lemma {:induction false} TwoNamesEach(users: seq<UserSpec>, email: int -> string, k: nat, name: string)
    requires Plain(users, email) && k < |users| && NameOf(users[k], email, name)
    ensures Tells(LimitsOf(users, email), name, users[k])
  {
    var n := |users| - 1;
    PlainInit(users, email);
    if k < n {
      TwoNamesEach(users[..n], email, k, name);
      NamesApart(users, email, k, n, name);
      EnterKeeps(LimitsOf(users[..n], email), users[n], email, name, users[k]);
    } else {
      assert users[..n] + [users[n]] == users;
      NoOtherName(users[..n], email, name, users[n]);
      EnterTells(LimitsOf(users[..n], email), users[n], email, name);
    }
  }

  lemma PlainInit(users: seq<UserSpec>, email: int -> string)
    requires Plain(users, email) && users != []
    ensures Plain(users[..|users| - 1], email)
  {
    assert forall u :: u in users[..|users| - 1] ==> u in users;
  }

  /** A name that none of the users bears has no limit. */
  lemma {:induction false} NoOtherName(users: seq<UserSpec>, email: int -> string, name: string, owner: UserSpec)
    requires NameOf(owner, email, name) && Plain(users + [owner], email)
    ensures name !in LimitsOf(users, email).deviceLimits
  {
    if users != [] {
      var n := |users| - 1;
      var longer, shorter := users + [owner], users[..n] + [owner];
      assert longer[n] == users[n] && longer[|users|] == owner && longer[n] in longer && owner in longer;
      assert forall i :: 0 <= i < n ==> shorter[i] == longer[i];
      assert Plain(shorter, email);
      NoOtherName(users[..n], email, name, owner);
    }
  }

  /** So there is never just one name for a user in the table of names. */
  lemma NeverOneName(users: seq<UserSpec>, email: int -> string, k: nat)
    requires Plain(users, email) && k < |users|
    ensures var uids, e, f := LimitsOf(users, email).emailToUID, email(users[k].id), users[k].uuid;
            e != f && e in uids && f in uids && uids[e] == uids[f] == users[k].id
  {
    var u := users[k];
    TwoNamesEach(users, email, k, email(u.id));
    TwoNamesEach(users, email, k, u.uuid);
    assert u in users;
  }

  /** But as long as connections come in under the names built from numbers only, no name with entries has a second. */
  lemma EmailEntriesAreExact(users: seq<UserSpec>, email: int -> string, limited: Table, unlimited: Table)
    requires Plain(users, email)
    requires forall e :: e in limited ==> exists k: nat :: k < |users| && e == email(users[k].id)
    ensures var uids := LimitsOf(users, email).emailToUID;
            OneNameEach(limited, uids) && ExactInEveryOrder(limited, unlimited, uids)
  {
    var uids := LimitsOf(users, email).emailToUID;
    forall e | e in limited
      ensures e in uids && e == email(uids[e])
    {
      var k: nat :| k < |users| && e == email(users[k].id);
      TwoNamesEach(users, email, k, e);
    }
    OneNameShadowsNothing(limited, unlimited, uids);
    ExactIff(limited, unlimited, uids);
  }

  /** A limited user connected under both names from two addresses: some walk order loses one of them. */
  lemma BothNamesLose(users: seq<UserSpec>, email: int -> string, k: nat, a: string, b: string)
    returns (limited: Table, first: seq<string>, second: seq<string>)
    requires Plain(users, email) && k < |users| && users[k].id != 0 && a != b
    ensures limited == map[email(users[k].id) := map[a := 1], users[k].uuid := map[b := 1]]
    ensures var uids := LimitsOf(users, email).emailToUID;
            && Walks(first, limited) && Walks(second, map[])
            && OpenFor(limited, map[], uids, users[k].id, a)
            && a !in Addresses(FullReport(limited, map[], uids, first, second), users[k].id)
  {
    var u, uids := users[k], LimitsOf(users, email).emailToUID;
    var e, f := email(u.id), u.uuid;
    TwoNamesEach(users, email, k, e);
    TwoNamesEach(users, email, k, f);
    assert u in users && e != f;
    limited := map[e := map[a := 1], f := map[b := 1]];
    assert limited[f] != map[] by {
      assert b in limited[f];
    }
    first, second := ShadowedIsLost(limited, map[], uids, e, f, a);
  }

  // ----- a limit that arrives while the name has an entry -----

  /** A user without a limit connects and disconnects; an empty entry stays. */
  method OnceUnlimited(email: string) returns (d: X.LimitDispatcher)
    ensures fresh(d) && d.open == {} && d.connCount == 0 && d.View() == X.Refs(map[], map[email := map[]])
  {
    d := new X.LimitDispatcher();
    var rejected := d.CheckDeviceLimit(email, "a", true);
    assert d.View() == X.Refs(map[], map[email := map["a" := 1]]);
    d.DelConn(email, "a");
  }

  /** With a limit of one device it does so again, from "b": the entry hides the second close. */
  method OnceLimited(d: X.LimitDispatcher, email: string)
    requires d.View() == X.Refs(map[], map[email := map[]])
    modifies d`limitedIPs, d`unlimitedIPs, d`emailToUID, d`deviceLimits
    ensures d.View() == X.Refs(map[email := map["b" := 1]], map[email := map[]])
    ensures d.deviceLimits == map[email := 1]
  {
    d.UpdateLimits(map[email := 7], map[email := 1]);
    NobodyBelow("b");
    var rejected := d.CheckDeviceLimit(email, "b", true);
    assert d.View() == X.Refs(map[email := map["b" := 1]], map[email := map[]]);
    d.DelConn(email, "b");
  }

  /** So with nothing open "b" still takes the one place, and "c" is turned away for good. */
  method LimitAfterUnlimitedLeaks(email: string) returns (d: X.LimitDispatcher, turnedAway: bool)
    ensures fresh(d) && d.open == {} && d.connCount == 0 && d.deviceLimits == map[email := 1]
    ensures d.View() == X.Refs(map[email := map["b" := 1]], map[email := map[]])
    ensures turnedAway && !d.Valid()
  {
    d := OnceUnlimited(email);
    OnceLimited(d, email);
    OneBelow();
    turnedAway := d.CheckDeviceLimit(email, "c", true);
    assert email in d.unlimitedIPs && X.HasLimit(d.deviceLimits, email);
  }

  lemma NobodyBelow(ip: string)
    ensures !Rejects({}, ip, 1)
  {
    assert Below({}, ip) == {};
  }

  lemma OneBelow()
    ensures Rejects({"b"}, "c", 1)
  {
    assert Below({"b"}, "c") == {"b"};
  }
}
