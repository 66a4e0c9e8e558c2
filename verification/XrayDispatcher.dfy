/**
 The xray admission dispatcher: two reference-count tables, one for users with a
 device limit and one for the others, and a counter of open links.
 */
module XrayDispatcher {
  import opened Wrappers
  import opened DeviceGate
  import opened AliveReport

  datatype Refs = Refs(limited: Table, unlimited: Table)

  function CountIn(t: Table, email: string, ip: string): int {
    if email in t && ip in t[email] then t[email][ip] else 0
  }

  /** How often a user's address is referenced, in whichever table. */
  function Count(r: Refs, email: string, ip: string): int {
    CountIn(r.limited, email, ip) + CountIn(r.unlimited, email, ip)
  }

  function Increment(t: Table, email: string, ip: string): Table {
    t[email := Inner(t, email)[ip := CountIn(t, email, ip) + 1]]
  }

  function AddSpec(r: Refs, isLimited: bool, email: string, ip: string): Refs {
    if isLimited then r.(limited := Increment(r.limited, email, ip))
    else r.(unlimited := Increment(r.unlimited, email, ip))
  }

  function LessOne(counts: map<string, int>, ip: string): map<string, int> {
    var left := (if ip in counts then counts[ip] else 0) - 1;
    if left <= 0 then counts - {ip} else counts[ip := left]
  }

  function Decrement(t: Table, email: string, ip: string): map<string, int> {
    LessOne(Inner(t, email), ip)
  }

  /** delConn looks into the unlimited table first, and only by user. */
  function DelSpec(r: Refs, email: string, ip: string): Refs {
    if email in r.unlimited then
      r.(unlimited := r.unlimited[email := Decrement(r.unlimited, email, ip)])
    else if email in r.limited then
      var ips := Decrement(r.limited, email, ip);
      r.(limited := if ips == map[] then r.limited - {email} else r.limited[email := ips])
    else r
  }

  predicate Positive(t: Table) {
    forall email :: email in t ==> forall ip :: ip in t[email] ==> t[email][ip] > 0
  }

  predicate PositiveRefs(r: Refs) {
    Positive(r.limited) && Positive(r.unlimited)
  }

  lemma AddCounts(r: Refs, isLimited: bool, email: string, ip: string)
    requires PositiveRefs(r)
    ensures PositiveRefs(AddSpec(r, isLimited, email, ip))
    ensures forall e, i :: Count(AddSpec(r, isLimited, email, ip), e, i) == Count(r, e, i) + if e == email && i == ip then 1 else 0
  {
  }

  lemma DecrementCounts(t: Table, email: string, ip: string)
    requires Positive(t) && email in t
    ensures var ips := Decrement(t, email, ip);
            && (forall i :: i in ips ==> ips[i] > 0 && ips[i] == CountIn(t, email, i) - if i == ip then 1 else 0)
            && (forall i :: i !in ips ==> CountIn(t, email, i) == if i == ip && i in t[email] then 1 else 0)
  {
  }

  lemma DelCounts(r: Refs, email: string, ip: string)
    requires PositiveRefs(r)
    ensures PositiveRefs(DelSpec(r, email, ip))
    ensures var d := DelSpec(r, email, ip);
            var hit := email in r.unlimited && ip in r.unlimited[email];
            var hitLimited := email !in r.unlimited && email in r.limited && ip in r.limited[email];
            && (forall e, i :: CountIn(d.unlimited, e, i) == CountIn(r.unlimited, e, i) - if hit && e == email && i == ip then 1 else 0)
            && (forall e, i :: CountIn(d.limited, e, i) == CountIn(r.limited, e, i) - if hitLimited && e == email && i == ip then 1 else 0)
  {
    if email in r.unlimited {
      DecrementCounts(r.unlimited, email, ip);
    } else if email in r.limited {
      DecrementCounts(r.limited, email, ip);
    }
  }

  /**
   A close undoes the matching open in both tables, unless the user has a limit now
   and was once served without one: the entry left in the unlimited table then hides
   the reference, and the address stays in the limited table for good.
   */
  lemma CloseUndoesOpenIff(r: Refs, isLimited: bool, email: string, ip: string)
    requires PositiveRefs(r)
    ensures var after := DelSpec(AddSpec(r, isLimited, email, ip), email, ip);
            (forall e, i :: CountIn(after.limited, e, i) == CountIn(r.limited, e, i)
                            && CountIn(after.unlimited, e, i) == CountIn(r.unlimited, e, i))
            <==> !(isLimited && email in r.unlimited)
  {
    var a := AddSpec(r, isLimited, email, ip);
    AddCounts(r, isLimited, email, ip);
    DelCounts(a, email, ip);
    if isLimited && email in r.unlimited {
      assert CountIn(DelSpec(a, email, ip).limited, email, ip) == CountIn(r.limited, email, ip) + 1;
    }
  }

  /** closeTrackingWriter: the handle of one open link. */
  class TrackedLink {
    const email: string
    const sourceIP: string
    const isTCP: bool
    var closed: bool

    constructor (email: string, sourceIP: string, isTCP: bool)
      ensures this.email == email && this.sourceIP == sourceIP && this.isTCP == isTCP && !closed
    {
      this.email, this.sourceIP, this.isTCP, closed := email, sourceIP, isTCP, false;
    }
  }

  ghost function TcpFrom(open: set<TrackedLink>, email: string, ip: string): set<TrackedLink> {
    set l | l in open && l.isTCP && l.email == email && l.sourceIP == ip
  }

  lemma OneMoreLink(open: set<TrackedLink>, l: TrackedLink)
    requires l !in open
    ensures forall e, i :: |TcpFrom(open + {l}, e, i)|
                           == |TcpFrom(open, e, i)| + if l.isTCP && e == l.email && i == l.sourceIP then 1 else 0
  {
    forall e, i
      ensures |TcpFrom(open + {l}, e, i)|
              == |TcpFrom(open, e, i)| + if l.isTCP && e == l.email && i == l.sourceIP then 1 else 0
    {
      if l.isTCP && e == l.email && i == l.sourceIP {
        assert TcpFrom(open + {l}, e, i) == TcpFrom(open, e, i) + {l};
      } else {
        assert TcpFrom(open + {l}, e, i) == TcpFrom(open, e, i);
      }
    }
  }

  predicate HasLimit(limits: map<string, int>, email: string) {
    email in limits && limits[email] > 0
  }

  /** Both tables together are a recount of the open TCP links; each user is in the table of its class. */
  ghost predicate Consistent(r: Refs, limits: map<string, int>, open: set<TrackedLink>) {
    && PositiveRefs(r)
    && (forall e :: e in r.limited ==> HasLimit(limits, e))
    && (forall e :: e in r.unlimited ==> !HasLimit(limits, e))
    && (forall e, i :: Count(r, e, i) == |TcpFrom(open, e, i)|)
  }

  /** No name that has entries gains or loses its limit. */
  ghost predicate KeepsClasses(r: Refs, before: map<string, int>, after: map<string, int>) {
    forall e :: e in r.limited || e in r.unlimited ==> (HasLimit(after, e) <==> HasLimit(before, e))
  }

  /** What the check leaves behind for a link that is then tracked. */
  lemma OpenKeeps(r: Refs, limits: map<string, int>, open: set<TrackedLink>, l: TrackedLink)
    requires Consistent(r, limits, open) && l !in open
    ensures Consistent(if l.isTCP then AddSpec(r, HasLimit(limits, l.email), l.email, l.sourceIP) else r, limits, open + {l})
  {
    AddCounts(r, HasLimit(limits, l.email), l.email, l.sourceIP);
    OneMoreLink(open, l);
  }

  lemma EmptyEntryKeeps(r: Refs, limits: map<string, int>, open: set<TrackedLink>, email: string)
    requires Consistent(r, limits, open) && HasLimit(limits, email) && email !in r.limited
    ensures Consistent(r.(limited := r.limited[email := map[]]), limits, open)
  {
    var r' := r.(limited := r.limited[email := map[]]);
    assert forall e, i :: Count(r', e, i) == Count(r, e, i);
  }

  lemma RefusedKeeps(r: Refs, limits: map<string, int>, open: set<TrackedLink>, email: string, ip: string)
    requires Consistent(r, limits, open)
    ensures Consistent(DelSpec(AddSpec(r, HasLimit(limits, email), email, ip), email, ip), limits, open)
  {
    var isLimited := HasLimit(limits, email);
    AddCounts(r, isLimited, email, ip);
    DelCounts(AddSpec(r, isLimited, email, ip), email, ip);
    CloseUndoesOpenIff(r, isLimited, email, ip);
  }

  lemma CloseKeeps(r: Refs, limits: map<string, int>, open: set<TrackedLink>, l: TrackedLink)
    requires Consistent(r, limits, open) && l in open
    ensures Consistent(if l.isTCP then DelSpec(r, l.email, l.sourceIP) else r, limits, open - {l})
  {
    OneMoreLink(open - {l}, l);
    assert open - {l} + {l} == open;
    if l.isTCP {
      assert Count(r, l.email, l.sourceIP) > 0;
      DelCounts(r, l.email, l.sourceIP);
    }
  }

  class LimitDispatcher {
    var limitedIPs: Table
    var unlimitedIPs: Table
    var deviceLimits: map<string, int>
    var emailToUID: map<string, int>
    var connCount: int

    ghost var tracked: set<TrackedLink>
    ghost var open: set<TrackedLink>

    ghost function View(): Refs
      reads this
    {
      Refs(limitedIPs, unlimitedIPs)
    }

    predicate Limited(email: string)
      reads this
    {
      HasLimit(deviceLimits, email)
    }

    ghost predicate Valid()
      reads this, tracked
    {
      && Consistent(View(), deviceLimits, open)
      && open <= tracked
      && (forall l :: l in tracked ==> (l.closed <==> l !in open))
      && connCount == |open|
    }

    constructor ()
      ensures Valid() && tracked == {} && deviceLimits == map[] && emailToUID == map[]
      ensures View() == Refs(map[], map[]) && connCount == 0
    {
      limitedIPs, unlimitedIPs, deviceLimits, emailToUID, connCount := map[], map[], map[], map[], 0;
      tracked, open := {}, {};
    }

    /** The counts stay consistent as long as every name that has entries keeps its class. */
    method UpdateLimits(emailToUID: map<string, int>, deviceLimits: map<string, int>)
      modifies this`emailToUID, this`deviceLimits
      ensures this.emailToUID == emailToUID && this.deviceLimits == deviceLimits
      ensures old(Valid()) && KeepsClasses(View(), old(this.deviceLimits), deviceLimits) ==> Valid()
    {
      this.emailToUID, this.deviceLimits := emailToUID, deviceLimits;
    }

    function KnownIPs(email: string): set<string>
      reads this
    {
      Inner(limitedIPs, email).Keys
    }

    /** For a name with a limit, the known addresses are those its open TCP links come from. */
    lemma KnownAreOpen(email: string)
      requires Valid() && Limited(email)
      ensures KnownIPs(email) == set l | l in open && l.isTCP && l.email == email :: l.sourceIP
    {
      forall ip
        ensures ip in KnownIPs(email) <==> exists l :: l in open && l.isTCP && l.email == email && l.sourceIP == ip
      {
        assert Count(View(), email, ip) == |TcpFrom(open, email, ip)|;
        if ip in KnownIPs(email) {
          var l := SomeMember(TcpFrom(open, email, ip));
        }
        if l :| l in open && l.isTCP && l.email == email && l.sourceIP == ip {
          assert l in TcpFrom(open, email, ip);
        }
      }
    }

    method AddLimited(email: string, sourceIP: string, isTCP: bool)
      modifies this`limitedIPs
      ensures limitedIPs == if isTCP then Increment(old(limitedIPs), email, sourceIP) else old(limitedIPs)
    {
      if isTCP {
        var ips := if email in limitedIPs then limitedIPs[email] else map[];
        limitedIPs := limitedIPs[email := ips[sourceIP := (if sourceIP in ips then ips[sourceIP] else 0) + 1]];
      }
    }

    /**
     Check and register in one step. A rejected or UDP attempt registers nothing; it
     may leave an empty entry behind, which counts as none.
     */
    method CheckDeviceLimit(email: string, sourceIP: string, isTCP: bool) returns (reject: bool)
      requires PositiveRefs(View())
      modifies this`limitedIPs, this`unlimitedIPs
      ensures reject == (Limited(email) && Rejects(old(KnownIPs(email)), sourceIP, deviceLimits[email]))
      ensures reject || !isTCP ==>
                unlimitedIPs == old(unlimitedIPs)
                && (limitedIPs == old(limitedIPs)
                    || (Limited(email) && email !in old(limitedIPs) && limitedIPs == old(limitedIPs)[email := map[]]))
      ensures !reject && isTCP ==> View() == AddSpec(old(View()), Limited(email), email, sourceIP)
      ensures Limited(email) ==> KnownIPs(email) == old(KnownIPs(email)) + if !reject && isTCP then {sourceIP} else {}
    {
      if !(email in deviceLimits) || deviceLimits[email] <= 0 {
        if isTCP {
          var ic := if email in unlimitedIPs then unlimitedIPs[email] else map[];
          unlimitedIPs := unlimitedIPs[email := ic[sourceIP := (if sourceIP in ic then ic[sourceIP] else 0) + 1]];
        }
        return false;
      }
      var limit := deviceLimits[email];
      if email in limitedIPs && sourceIP in limitedIPs[email] && limitedIPs[email][sourceIP] > 0 {
        AddLimited(email, sourceIP, isTCP);
        return false;
      }
      BelowAtMost(KnownIPs(email), sourceIP);
      if email in limitedIPs && |limitedIPs[email]| < limit {
        assert |limitedIPs[email]| == |KnownIPs(email)|;
        AddLimited(email, sourceIP, isTCP);
        return false;
      }
      reject := SlowPath(email, sourceIP, isTCP, limit);
    }

    /** Deterministic: allow the lowest addresses. */
    method AmongLowest(ips: set<string>, sourceIP: string, limit: int) returns (found: bool)
      requires limit > 0 && sourceIP !in ips
      ensures found == (|Below(ips, sourceIP)| < limit)
    {
      var ipList: seq<string> := [];
      var todo := ips;
      while todo != {}
        invariant todo <= ips && Distinct(ipList) && Elements(ipList) == ips - todo
      {
        ghost var _ := SomeMember(todo);
        var ip :| ip in todo;
        assert ip !in Elements(ipList);
        assert Elements(ipList + [ip]) == Elements(ipList) + {ip};
        ipList, todo := ipList + [ip], todo - {ip};
      }
      assert sourceIP !in Elements(ipList) && Elements(ipList) == ips;
      assert Elements(ipList + [sourceIP]) == Elements(ipList) + {sourceIP};
      BelowWithout(ips, sourceIP);
      found := AmongFirst(ipList + [sourceIP], sourceIP, limit);
    }

    /** The part under the write lock; its re-checks matter only to concurrent callers. */
    method SlowPath(email: string, sourceIP: string, isTCP: bool, limit: int) returns (reject: bool)
      requires PositiveRefs(View()) && limit > 0
      modifies this`limitedIPs
      ensures reject == Rejects(old(KnownIPs(email)), sourceIP, limit)
      ensures reject || !isTCP ==>
                limitedIPs == if email in old(limitedIPs) then old(limitedIPs) else old(limitedIPs)[email := map[]]
      ensures !reject && isTCP ==> limitedIPs == Increment(old(limitedIPs), email, sourceIP)
    {
      ghost var before := limitedIPs;
      if email !in limitedIPs {
        limitedIPs := limitedIPs[email := map[]];
      }
      assert Increment(limitedIPs, email, sourceIP) == Increment(before, email, sourceIP);
      var ips := limitedIPs[email];
      if sourceIP in ips && ips[sourceIP] > 0 {
        AddLimited(email, sourceIP, isTCP);
        return false;
      }
      assert |ips| == |ips.Keys|;
      if |ips| < limit {
        BelowAtMost(ips.Keys, sourceIP);
        AddLimited(email, sourceIP, isTCP);
        return false;
      }
      var found := AmongLowest(ips.Keys, sourceIP, limit);
      if found {
        AddLimited(email, sourceIP, isTCP);
      }
      return !found;
    }

    method DelConn(email: string, sourceIP: string)
      modifies this`limitedIPs, this`unlimitedIPs
      ensures View() == DelSpec(old(View()), email, sourceIP)
    {
      if email in unlimitedIPs {
        var ic := OneReferenceLess(unlimitedIPs[email], sourceIP);
        unlimitedIPs := unlimitedIPs[email := ic];
        return;
      }
      if email in limitedIPs {
        var ips := limitedIPs[email];
        ips := ips[sourceIP := (if sourceIP in ips then ips[sourceIP] else 0) - 1];
        if ips[sourceIP] <= 0 {
          ips := ips - {sourceIP};
        }
        assert ips == LessOne(limitedIPs[email], sourceIP);
        if |ips| == 0 {
          limitedIPs := limitedIPs - {email};
        } else {
          limitedIPs := limitedIPs[email := ips];
        }
      }
    }

    /** A counter of the unlimited table; an address that is not there is left alone. */
    method OneReferenceLess(counts: map<string, int>, sourceIP: string) returns (ic: map<string, int>)
      ensures ic == LessOne(counts, sourceIP)
    {
      ic := counts;
      if sourceIP in ic {
        ic := ic[sourceIP := ic[sourceIP] - 1];
        if ic[sourceIP] <= 0 {
          ic := ic - {sourceIP};
        }
      }
    }

    /** trackLink: the link's close handler will undo this. */
    method TrackLink(email: string, sourceIP: string, isTCP: bool) returns (l: TrackedLink)
      modifies this`connCount, this`tracked, this`open
      ensures fresh(l) && l.email == email && l.sourceIP == sourceIP && l.isTCP == isTCP && !l.closed
      ensures connCount == old(connCount) + 1 && tracked == old(tracked) + {l} && open == old(open) + {l}
    {
      connCount := connCount + 1;
      l := new TrackedLink(email, sourceIP, isTCP);
      tracked, open := tracked + {l}, open + {l};
    }

    method IdentifyAndCheck(email: string, sourceIP: string, isTCP: bool) returns (reject: bool)
      requires Valid()
      modifies this`limitedIPs, this`unlimitedIPs
      ensures reject == (Limited(email) && Rejects(old(KnownIPs(email)), sourceIP, deviceLimits[email]))
      ensures reject || !isTCP ==> Valid()
      ensures !reject && isTCP ==> View() == AddSpec(old(View()), Limited(email), email, sourceIP)
      ensures Limited(email) ==> KnownIPs(email) == old(KnownIPs(email)) + if !reject && isTCP then {sourceIP} else {}
    {
      ghost var before := View();
      reject := CheckDeviceLimit(email, sourceIP, isTCP);
      if View() != before && (reject || !isTCP) {
        EmptyEntryKeeps(before, deviceLimits, open, email);
      }
    }

    /** Undo a check whose connection xray has refused. */
    method GiveBack(email: string, sourceIP: string, ghost before: Refs)
      requires Consistent(before, deviceLimits, open) && View() == AddSpec(before, Limited(email), email, sourceIP)
      modifies this`limitedIPs, this`unlimitedIPs
      ensures Consistent(View(), deviceLimits, open)
    {
      RefusedKeeps(before, deviceLimits, open, email, sourceIP);
      DelConn(email, sourceIP);
    }

    /**
     Dispatch for an identified user; `innerOk` is whether xray accepted the request.
     A TCP connection that xray refuses gives its reference back at once.
     */
    method Dispatch(email: string, sourceIP: string, isTCP: bool, innerOk: bool) returns (rejected: bool, l: TrackedLink?)
      requires Valid()
      modifies this`limitedIPs, this`unlimitedIPs, this`connCount, this`tracked, this`open
      ensures Valid()
      ensures rejected == (Limited(email) && Rejects(old(KnownIPs(email)), sourceIP, deviceLimits[email]))
      ensures email !in deviceLimits || deviceLimits[email] <= 0 ==> !rejected
      ensures email in deviceLimits && deviceLimits[email] > 0 ==>
                rejected == Rejects(old(KnownIPs(email)), sourceIP, deviceLimits[email])
      ensures l != null <==> !rejected && innerOk
      ensures l == null ==> tracked == old(tracked) && open == old(open)
      ensures l != null ==> fresh(l) && l.email == email && l.sourceIP == sourceIP && l.isTCP == isTCP && !l.closed
                            && tracked == old(tracked) + {l} && open == old(open) + {l}
      ensures Limited(email) && (l != null || rejected) ==>
                KnownIPs(email) == old(KnownIPs(email)) + if l != null && isTCP then {sourceIP} else {}
    {
      ghost var before := View();
      rejected := IdentifyAndCheck(email, sourceIP, isTCP);
      if rejected {
        return true, null;
      }
      if !innerOk {
        if isTCP {
          GiveBack(email, sourceIP, before);
        }
        return false, null;
      }
      ghost var checked := View();
      l := TrackLink(email, sourceIP, isTCP);
      OpenKeeps(if isTCP then before else checked, deviceLimits, old(open), l);
      return false, l;
    }

    /** Close and Interrupt of the link: only the first one counts. */
    method CloseLink(l: TrackedLink)
      requires Valid() && l in tracked
      modifies this`limitedIPs, this`unlimitedIPs, this`connCount, this`open, l`closed
      ensures Valid() && l.closed && open == old(open) - {l}
    {
      if !l.closed {
        l.closed := true;
        CloseKeeps(View(), deviceLimits, open, l);
        if l.isTCP {
          DelConn(l.email, l.sourceIP);
        }
        connCount := connCount - 1;
        open := open - {l};
      }
    }

    /** Some TCP link of `email`, who is panel user `uid`, is open from `ip`. */
    ghost predicate Alive(email: string, uid: int, ip: string)
      reads this
    {
      email in emailToUID && emailToUID[email] == uid && uid != 0 && TcpFrom(open, email, ip) != {}
    }

    ghost predicate Sound(aliveIPs: map<int, set<string>>)
      reads this
    {
      forall uid, ip :: uid in aliveIPs && ip in aliveIPs[uid] ==> Somebody(uid, ip)
    }

    ghost predicate Somebody(uid: int, ip: string)
      reads this
    {
      exists e :: Alive(e, uid, ip)
    }

    /** No other name with a limit belongs to the same panel user. */
    ghost predicate Unshadowed(email: string)
      reads this
    {
      email in limitedIPs ==>
        forall e :: e in limitedIPs && e != email && e in emailToUID && email in emailToUID ==> emailToUID[e] != emailToUID[email]
    }

    ghost predicate Reports(aliveIPs: Report, email: string)
      reads this
    {
      forall uid, ip :: Alive(email, uid, ip) ==> ip in Addresses(aliveIPs, uid)
    }

    lemma AliveIsCounted(email: string, uid: int)
      requires Valid() && uid == UidIn(emailToUID, email)
      ensures forall u, ip :: Alive(email, u, ip) <==>
                u == uid && uid != 0 && (ip in Inner(limitedIPs, email) || ip in Inner(unlimitedIPs, email))
    {
      forall ip
        ensures TcpFrom(open, email, ip) != {} <==> ip in Inner(limitedIPs, email) || ip in Inner(unlimitedIPs, email)
      {
        assert Count(View(), email, ip) == |TcpFrom(open, email, ip)|;
      }
    }

    /** The tables know who is open from where. */
    lemma SomebodyIsOpen(uid: int, ip: string)
      requires Valid()
      ensures Somebody(uid, ip) <==> OpenFor(limitedIPs, unlimitedIPs, emailToUID, uid, ip)
    {
      if e :| Alive(e, uid, ip) {
        AliveIsCounted(e, UidIn(emailToUID, e));
        assert UidIn(emailToUID, e) == uid;
      }
      if OpenFor(limitedIPs, unlimitedIPs, emailToUID, uid, ip) {
        var e :| uid != 0 && UidIn(emailToUID, e) == uid && (ip in Inner(limitedIPs, e) || ip in Inner(unlimitedIPs, e));
        AliveIsCounted(e, uid);
        assert Alive(e, uid, ip);
      }
    }

    lemma ReportIsSound(aliveIPs: Report, first: seq<string>, second: seq<string>)
      requires Valid() && aliveIPs == FullReport(limitedIPs, unlimitedIPs, emailToUID, first, second)
      ensures Sound(aliveIPs)
    {
      forall uid, ip | uid in aliveIPs && ip in aliveIPs[uid]
        ensures Somebody(uid, ip)
      {
        ReportedIsOpen(limitedIPs, unlimitedIPs, emailToUID, first, second, uid, ip);
        SomebodyIsOpen(uid, ip);
      }
    }

    /** A name that no other limited name shadows is reported in full, whatever the order. */
    lemma UnshadowedIsReported(aliveIPs: Report, first: seq<string>, second: seq<string>, e: string)
      requires Valid() && aliveIPs == FullReport(limitedIPs, unlimitedIPs, emailToUID, first, second)
      requires Walks(first, limitedIPs) && Walks(second, unlimitedIPs) && Unshadowed(e)
      ensures Reports(aliveIPs, e)
    {
      AliveIsCounted(e, UidIn(emailToUID, e));
      forall uid, ip | Alive(e, uid, ip)
        ensures ip in Addresses(aliveIPs, uid)
      {
        LastWins(limitedIPs, emailToUID, first, uid);
        UnlimitedAdds(unlimitedIPs, emailToUID, second, WalkLimited(limitedIPs, emailToUID, first), uid);
        if ip in Inner(unlimitedIPs, e) {
          assert Shows(unlimitedIPs, emailToUID, e, uid) && e in Elements(second);
        } else {
          assert Shows(limitedIPs, emailToUID, e, uid) && e in Elements(first);
          assert first[LastOf(limitedIPs, emailToUID, first, uid)] in Elements(first);
        }
      }
    }

    lemma ReportIsExact(aliveIPs: Report, first: seq<string>, second: seq<string>)
      requires Valid() && aliveIPs == FullReport(limitedIPs, unlimitedIPs, emailToUID, first, second)
      requires Walks(first, limitedIPs) && Walks(second, unlimitedIPs)
      requires NoneShadowed(limitedIPs, unlimitedIPs, emailToUID)
      ensures forall uid, ip :: ip in Addresses(aliveIPs, uid) <==> Somebody(uid, ip)
    {
      ExactThere(limitedIPs, unlimitedIPs, emailToUID, first, second);
      forall uid, ip
        ensures ip in Addresses(aliveIPs, uid) <==> Somebody(uid, ip)
      {
        SomebodyIsOpen(uid, ip);
      }
    }

    method ReportLimited(email: string, before: Report, ghost order: seq<string>) returns (aliveIPs: Report)
      requires email in limitedIPs && before == WalkLimited(limitedIPs, emailToUID, order)
      ensures aliveIPs == WalkLimited(limitedIPs, emailToUID, order + [email])
    {
      aliveIPs := before;
      var uid := if email in emailToUID then emailToUID[email] else 0;
      if uid != 0 && limitedIPs[email] != map[] {
        aliveIPs := aliveIPs[uid := limitedIPs[email].Keys];
      }
      assert (order + [email])[..|order|] == order;
    }

    /** A user without a limit is added to what is already reported. */
    method ReportUnlimited(email: string, before: Report, ghost limited: Report, ghost order: seq<string>)
      returns (aliveIPs: Report)
      requires email in unlimitedIPs && Positive(unlimitedIPs)
      requires before == WalkUnlimited(unlimitedIPs, emailToUID, order, limited)
      ensures aliveIPs == WalkUnlimited(unlimitedIPs, emailToUID, order + [email], limited)
    {
      aliveIPs := before;
      var uid := if email in emailToUID then emailToUID[email] else 0;
      var ips := set ip | ip in unlimitedIPs[email] && unlimitedIPs[email][ip] > 0;
      assert ips == unlimitedIPs[email].Keys;
      if uid != 0 && ips != {} {
        aliveIPs := aliveIPs[uid := (if uid in aliveIPs then aliveIPs[uid] else {}) + ips];
      }
      assert (order + [email])[..|order|] == order;
    }

    method WalkLimitedNames() returns (aliveIPs: Report, ghost order: seq<string>)
      ensures Walks(order, limitedIPs) && aliveIPs == WalkLimited(limitedIPs, emailToUID, order)
    {
      aliveIPs, order := map[], [];
      var todo: set<string> := limitedIPs.Keys;
      while todo != {}
        invariant Remaining(limitedIPs.Keys, order, todo)
        invariant aliveIPs == WalkLimited(limitedIPs, emailToUID, order)
        decreases |todo|
      {
        ghost var _ := SomeMember(todo);
        var email :| email in todo;
        NextName(limitedIPs.Keys, order, todo, email);
        aliveIPs := ReportLimited(email, aliveIPs, order);
        todo, order := todo - {email}, order + [email];
      }
    }

    method WalkUnlimitedNames(limited: Report) returns (aliveIPs: Report, ghost order: seq<string>)
      requires Positive(unlimitedIPs)
      ensures Walks(order, unlimitedIPs) && aliveIPs == WalkUnlimited(unlimitedIPs, emailToUID, order, limited)
    {
      aliveIPs, order := limited, [];
      var todo: set<string> := unlimitedIPs.Keys;
      while todo != {}
        invariant Remaining(unlimitedIPs.Keys, order, todo)
        invariant aliveIPs == WalkUnlimited(unlimitedIPs, emailToUID, order, limited)
        decreases |todo|
      {
        ghost var _ := SomeMember(todo);
        var email :| email in todo;
        NextName(unlimitedIPs.Keys, order, todo, email);
        aliveIPs := ReportUnlimited(email, aliveIPs, limited, order);
        todo, order := todo - {email}, order + [email];
      }
    }

    /**
     Nothing is reported that is not open, and everything is that no second limited
     name of the user shadows. The rest depends on the order in which the tables
     are walked; `ExactIff` says when it does not.
     */
    method GetConnectionState() returns (aliveIPs: Report, count: int, ghost first: seq<string>, ghost second: seq<string>)
      requires Valid()
      ensures Walks(first, limitedIPs) && Walks(second, unlimitedIPs)
      ensures aliveIPs == FullReport(limitedIPs, unlimitedIPs, emailToUID, first, second)
      ensures Sound(aliveIPs)
      ensures forall e :: Unshadowed(e) ==> Reports(aliveIPs, e)
      ensures NoneShadowed(limitedIPs, unlimitedIPs, emailToUID) ==>
                forall uid, ip :: ip in Addresses(aliveIPs, uid) <==> Somebody(uid, ip)
      ensures count == |open|
    {
      aliveIPs, first := WalkLimitedNames();
      aliveIPs, second := WalkUnlimitedNames(aliveIPs);
      ReportIsSound(aliveIPs, first, second);
      forall e | Unshadowed(e)
        ensures Reports(aliveIPs, e)
      {
        UnshadowedIsReported(aliveIPs, first, second, e);
      }
      if NoneShadowed(limitedIPs, unlimitedIPs, emailToUID) {
        ReportIsExact(aliveIPs, first, second);
      }
      count := connCount;
    }
  }

  /** What is left of a walk over the names. */
  predicate Remaining(names: set<string>, order: seq<string>, todo: set<string>) {
    Distinct(order) && todo !! Elements(order) && todo + Elements(order) == names
  }

  lemma NextName(names: set<string>, order: seq<string>, todo: set<string>, email: string)
    requires Remaining(names, order, todo) && email in todo
    ensures Remaining(names, order + [email], todo - {email})
  {
    assert forall i :: 0 <= i < |order| ==> order[i] in Elements(order);
    assert Elements(order + [email]) == Elements(order) + {email};
  }
}
