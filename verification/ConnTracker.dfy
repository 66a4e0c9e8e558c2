/**
 The sing-box connection tracker: per-user reference counts instead of a list of
 connections. The list exists here as history only, to count against.
 */
module ConnTracker {
  import opened Wrappers
  import opened DeviceGate

  const SECOND := 1_000_000_000

  class UserStats {
    var ips: map<string, int>  // source address -> open connections from it
    var connCount: int
    var upload: int    // bytes over all connections, closed ones included
    var download: int

    constructor ()
      ensures ips == map[] && connCount == 0 && upload == 0 && download == 0
    {
      ips, connCount, upload, download := map[], 0, 0, 0;
    }

    /** What Read and Write of a wrapped connection report. */
    method AddBytes(up: nat, down: nat)
      modifies this`upload, this`download
      ensures upload == old(upload) + up && download == old(download) + down
    {
      upload, download := upload + up, download + down;
    }

    method AddConn(sourceIP: string)
      modifies this`ips, this`connCount
      ensures connCount == old(connCount) + 1
      ensures ips == old(ips)[sourceIP := (if sourceIP in old(ips) then old(ips)[sourceIP] else 0) + 1]
    {
      connCount := connCount + 1;
      ips := ips[sourceIP := (if sourceIP in ips then ips[sourceIP] else 0) + 1];
    }

    method RemoveConn(sourceIP: string)
      modifies this`ips, this`connCount
      ensures connCount == old(connCount) - 1
      ensures var left := (if sourceIP in old(ips) then old(ips)[sourceIP] else 0) - 1;
              ips == if left <= 0 then old(ips) - {sourceIP} else old(ips)[sourceIP := left]
    {
      connCount := connCount - 1;
      ips := ips[sourceIP := (if sourceIP in ips then ips[sourceIP] else 0) - 1];
      if ips[sourceIP] <= 0 {
        ips := ips - {sourceIP};
      }
    }
  }

  /** A wrapped connection; `us` is null for one that belongs to no known user. */
  class TrackedConn {
    const us: UserStats?
    const sourceIP: string
    var closed: bool

    constructor (us: UserStats?, sourceIP: string)
      ensures this.us == us && this.sourceIP == sourceIP && !closed
    {
      this.us, this.sourceIP, closed := us, sourceIP, false;
    }
  }

  function StatsIn(users: map<int, UserStats>): (all: set<UserStats>)
    ensures forall u :: u in users ==> users[u] in all
  {
    set u | u in users :: users[u]
  }

  // ----- the recount -----

  ghost function OpenOf(open: set<TrackedConn>, us: UserStats): set<TrackedConn> {
    set c | c in open && c.us == us
  }

  ghost function OpenFrom(open: set<TrackedConn>, us: UserStats, ip: string): set<TrackedConn> {
    set c | c in open && c.us == us && c.sourceIP == ip
  }

  /** The counters of one user are a recount of that user's open connections, with no zero entries. */
  ghost predicate Counts(open: set<TrackedConn>, us: UserStats)
    reads us
  {
    && us.connCount == |OpenOf(open, us)|
    && (forall ip :: ip in us.ips ==> us.ips[ip] == |OpenFrom(open, us, ip)| && us.ips[ip] > 0)
    && (forall ip :: ip !in us.ips ==> OpenFrom(open, us, ip) == {})
  }

  lemma OthersKeepCounts(open: set<TrackedConn>, c: TrackedConn, us: UserStats)
    requires c.us != us
    ensures OpenOf(open + {c}, us) == OpenOf(open, us) == OpenOf(open - {c}, us)
    ensures forall ip :: OpenFrom(open + {c}, us, ip) == OpenFrom(open, us, ip) == OpenFrom(open - {c}, us, ip)
  {
  }

  lemma OneMore(open: set<TrackedConn>, c: TrackedConn, us: UserStats)
    requires c.us == us && c !in open
    ensures |OpenOf(open + {c}, us)| == |OpenOf(open, us)| + 1
    ensures |OpenFrom(open + {c}, us, c.sourceIP)| == |OpenFrom(open, us, c.sourceIP)| + 1
    ensures forall ip :: ip != c.sourceIP ==> OpenFrom(open + {c}, us, ip) == OpenFrom(open, us, ip)
  {
    assert OpenOf(open + {c}, us) == OpenOf(open, us) + {c};
    assert OpenFrom(open + {c}, us, c.sourceIP) == OpenFrom(open, us, c.sourceIP) + {c};
  }

  lemma OneLess(open: set<TrackedConn>, c: TrackedConn, us: UserStats)
    requires c.us == us && c in open
    ensures |OpenOf(open - {c}, us)| == |OpenOf(open, us)| - 1
    ensures |OpenFrom(open - {c}, us, c.sourceIP)| == |OpenFrom(open, us, c.sourceIP)| - 1
    ensures forall ip :: ip != c.sourceIP ==> OpenFrom(open - {c}, us, ip) == OpenFrom(open, us, ip)
  {
    OneMore(open - {c}, c, us);
    assert open - {c} + {c} == open;
  }

  /** What the counters must show once the connection is gone. */
  lemma RemovalCounts(open: set<TrackedConn>, c: TrackedConn, us: UserStats)
    requires c.us == us && c in open && Counts(open, us)
    ensures us.connCount - 1 == |OpenOf(open - {c}, us)|
    ensures c.sourceIP in us.ips
    ensures forall ip :: ip != c.sourceIP ==>
              |OpenFrom(open - {c}, us, ip)| == if ip in us.ips then us.ips[ip] else 0
    ensures |OpenFrom(open - {c}, us, c.sourceIP)| == us.ips[c.sourceIP] - 1
  {
    OneLess(open, c, us);
    assert c in OpenFrom(open, us, c.sourceIP);
  }

  /** Connections of nobody in particular, and of users without a limit, always pass. */
  predicate Refuses(limit: Option<int>, known: Option<set<string>>, sourceIP: string) {
    limit.Some? && known.Some? && Rejects(known.value, sourceIP, limit.value)
  }

  function Learned(known: Option<set<string>>, sourceIP: string): Option<set<string>> {
    if known == None then None else Some(known.value + {sourceIP})
  }

  class ConnTracker {
    var users: map<int, UserStats>
    var uuidMap: map<string, int>
    var globalDevices: map<int, set<string>>
    var globalLastUpdate: Option<int>  // nanoseconds; None is Go's zero time

    ghost var wrapped: set<TrackedConn>  // every connection ever wrapped
    ghost var open: set<TrackedConn>     // those not closed yet

    ghost predicate Owned(us: UserStats?)
      reads this`users
    {
      exists u :: u in users && users[u] == us
    }

    ghost predicate Valid()
      reads this`users, this`wrapped, this`open, wrapped, StatsIn(users)
    {
      && (forall u, v :: u in users && v in users && u != v ==> users[u] != users[v])
      && open <= wrapped
      && (forall c :: c in wrapped ==> (c.closed <==> c !in open))
      && (forall c :: c in wrapped && c.us != null ==> Owned(c.us))
      && (forall u :: u in users ==> Counts(open, users[u]))
    }

    constructor ()
      ensures Valid() && users == map[] && uuidMap == map[] && globalDevices == map[] && wrapped == {}
    {
      users, uuidMap, globalDevices, wrapped, open := map[], map[], map[], {}, {};
      globalLastUpdate := None;
    }

    /** The panel's list is older than 60 s. */
    predicate Stale(now: int)
      reads this`globalLastUpdate
    {
      globalLastUpdate.None? || now - globalLastUpdate.value > 60 * SECOND
    }

    /** What the gate knows about a user: its own open addresses, plus the panel's while they are fresh. */
    function KnownIPs(us: UserStats, userID: int, stale: bool): set<string>
      reads this, us
    {
      us.ips.Keys + PanelIPs(userID, stale)
    }

    function PanelIPs(userID: int, stale: bool): set<string>
      reads this
    {
      if stale || userID !in globalDevices then {} else globalDevices[userID]
    }

    /** A fresh list that names the user counts, a stale or missing one does not. */
    lemma KnownIsListed(us: UserStats?, userID: int, stale: bool)
      ensures us != null && !stale && userID in globalDevices ==>
                KnownIPs(us, userID, stale) == us.ips.Keys + globalDevices[userID]
      ensures us != null && (stale || userID !in globalDevices) ==> KnownIPs(us, userID, stale) == us.ips.Keys
    {
    }

    /** The user's own part is where its open connections come from. */
    lemma LocalAreOpen(us: UserStats)
      requires Valid() && Owned(us)
      ensures us.ips.Keys == set c | c in open && c.us == us :: c.sourceIP
    {
      var u :| u in users && users[u] == us;
      assert Counts(open, users[u]);
      forall ip
        ensures ip in us.ips <==> exists c :: c in open && c.us == us && c.sourceIP == ip
      {
        if ip in us.ips {
          var c := SomeMember(OpenFrom(open, us, ip));
        }
        if c :| c in open && c.us == us && c.sourceIP == ip {
          assert c in OpenFrom(open, us, ip);
        }
      }
    }

    lemma LearnsKnown(before: set<string>, after: set<string>, panel: set<string>, sourceIP: string)
      requires after == before + {sourceIP}
      ensures after + panel == before + panel + {sourceIP}
    {
    }

    method CheckDeviceGate(us: UserStats?, userID: int, sourceIP: string, limit: int, now: int) returns (reject: bool)
      ensures reject == (us != null && Rejects(KnownIPs(us, userID, Stale(now)), sourceIP, limit))
      ensures us == null || limit <= 0 ==> !reject
      ensures us != null && userID in globalDevices && globalLastUpdate.Some? && now <= globalLastUpdate.value + 60_000_000_000 ==>
                reject == Rejects(us.ips.Keys + globalDevices[userID], sourceIP, limit)
      ensures us != null && (userID !in globalDevices || globalLastUpdate.None? || now > globalLastUpdate.value + 60_000_000_000) ==>
                reject == Rejects(us.ips.Keys, sourceIP, limit)
    {
      var stale := Stale(now);
      KnownIsListed(us, userID, stale);
      if us == null || limit <= 0 {
        return false;
      }
      var localIPs := us.ips.Keys;
      if sourceIP in localIPs {
        assert sourceIP in KnownIPs(us, userID, stale);
        return false;
      }
      if stale || userID !in globalDevices {
        reject := OverLimit(localIPs, sourceIP, limit);
        return;
      }
      var globalIPs := globalDevices[userID];
      if sourceIP in globalIPs {
        assert sourceIP in KnownIPs(us, userID, stale);
        return false;
      }
      reject := OverLimit(localIPs + globalIPs, sourceIP, limit);
    }

    /** The common tail of both branches: room left, or else lexicographic selection. */
    method OverLimit(ips: set<string>, sourceIP: string, limit: int) returns (reject: bool)
      requires limit > 0 && sourceIP !in ips
      ensures reject == Rejects(ips, sourceIP, limit)
    {
      if |ips| < limit {
        BelowAtMost(ips, sourceIP);
        return false;
      }
      var ipList: seq<string> := [];
      var todo := ips;
      while todo != {}
        invariant todo <= ips && Distinct(ipList) && Elements(ipList) == ips - todo
      {
        ghost var _ := SomeMember(todo);
        var ip :| ip in todo;
        assert ip !in Elements(ipList);
        assert Elements(ipList + [ip]) == Elements(ipList) + {ip};
        ipList, todo := ipList + [ip], todo - {ip};
      }
      assert sourceIP !in Elements(ipList);
      assert Elements(ipList) == ips;
      assert Elements(ipList + [sourceIP]) == Elements(ipList) + {sourceIP};
      ipList := ipList + [sourceIP];
      BelowWithout(ips, sourceIP);
      var found := AmongFirst(ipList, sourceIP, limit);
      return !found;
    }

    /** RoutedConnection after the gate; without a known user nothing is counted. */
    method Wrap(us: UserStats?, sourceIP: string) returns (c: TrackedConn)
      requires Valid() && (us != null ==> Owned(us))
      modifies this`wrapped, this`open, us
      ensures Valid() && fresh(c) && c.us == us && c.sourceIP == sourceIP && !c.closed
      ensures wrapped == old(wrapped) + {c} && open == old(open) + {c}
      ensures us != null ==> us.ips.Keys == old(us.ips.Keys) + {sourceIP}
    {
      if us != null {
        us.AddConn(sourceIP);
      }
      c := new TrackedConn(us, sourceIP);
      forall u | u in users
        ensures Counts(open + {c}, users[u])
      {
        if users[u] == us {
          OneMore(open, c, us);
        } else {
          OthersKeepCounts(open, c, users[u]);
        }
      }
      wrapped, open := wrapped + {c}, open + {c};
    }

    /** Bytes that a connection moves go to its user, and disturb nothing else. */
    method Transfer(c: TrackedConn, up: nat, down: nat)
      requires Valid() && c in wrapped
      modifies c.us
      ensures Valid()
      ensures c.us != null ==> c.us.ips == old(c.us.ips) && c.us.connCount == old(c.us.connCount)
      ensures c.us != null ==> c.us.upload == old(c.us.upload) + up && c.us.download == old(c.us.download) + down
    {
      if c.us != null {
        c.us.AddBytes(up, down);
      }
    }

    method ReleaseCount(c: TrackedConn)
      requires c in open && c.us != null && Counts(open, c.us)
      modifies c.us
      ensures Counts(open - {c}, c.us)
    {
      RemovalCounts(open, c, c.us);
      c.us.RemoveConn(c.sourceIP);
    }

    /** Only the first Close of a connection counts. */
    method Close(c: TrackedConn)
      requires Valid() && c in wrapped
      modifies this`open, c`closed, c.us
      ensures Valid() && c.closed
      ensures open == old(open) - {c}
    {
      if c.closed {
        return;
      }
      c.closed := true;
      OthersAfterClose(c);
      if c.us != null {
        assert Owned(c.us);
        ReleaseCount(c);
      }
      open := open - {c};
    }

    lemma OthersAfterClose(c: TrackedConn)
      requires forall u :: u in users ==> Counts(open, users[u])
      ensures forall u :: u in users && users[u] != c.us ==> Counts(open - {c}, users[u])
    {
      forall u | u in users && users[u] != c.us
        ensures Counts(open - {c}, users[u])
      {
        OthersKeepCounts(open, c, users[u]);
      }
    }

    /** Go's map reads: an unknown UUID means user 0, which usually has no counters. */
    function StatsOf(uuid: string): (us: UserStats?)
      reads this
      ensures uuid in uuidMap && uuidMap[uuid] in users ==> us == users[uuidMap[uuid]]
      ensures uuid in uuidMap && uuidMap[uuid] !in users ==> us == null
      ensures uuid !in uuidMap && 0 !in users ==> us == null
    {
      var uid := if uuid in uuidMap then uuidMap[uuid] else 0;
      if uid in users then users[uid] else null
    }

    function UserOf(uuid: string): int
      reads this
    {
      if uuid in uuidMap then uuidMap[uuid] else 0
    }

    /** Null stands for a rejected connection, which is closed and returned unwrapped. */
    method RoutedConnection(uuid: string, sourceIP: string, limit: Option<int>, now: int) returns (c: TrackedConn?)
      requires Valid()
      modifies this`wrapped, this`open, StatsOf(uuid)
      ensures Valid()
      ensures c == null <==> Refuses(limit, old(KnownOf(uuid, Stale(now))), sourceIP)
      ensures limit.None? || StatsOf(uuid) == null ==> c != null
      ensures limit.Some? && uuid in uuidMap && uuidMap[uuid] in users ==>
                var uid := uuidMap[uuid];
                var local := old(users[uuidMap[uuid]].ips.Keys);
                var fresh60 := globalLastUpdate.Some? && now <= globalLastUpdate.value + 60_000_000_000;
                c == null <==> Rejects(if fresh60 && uid in globalDevices then local + globalDevices[uid] else local, sourceIP, limit.value)
      ensures c == null ==> wrapped == old(wrapped) && open == old(open)
      ensures c != null ==> fresh(c) && c.us == StatsOf(uuid) && c.sourceIP == sourceIP && !c.closed
                            && wrapped == old(wrapped) + {c} && open == old(open) + {c}
      ensures KnownOf(uuid, Stale(now)) ==
              if c == null then old(KnownOf(uuid, Stale(now))) else Learned(old(KnownOf(uuid, Stale(now))), sourceIP)
    {
      ghost var stale := Stale(now);
      var us, reject := GateKeep(uuid, sourceIP, limit, now);
      KnownIsListed(us, UserOf(uuid), stale);
      if reject {
        return null;
      }
      ghost var before := if us == null then {} else us.ips.Keys;
      c := Wrap(us, sourceIP);
      if us != null {
        LearnsKnown(before, us.ips.Keys, PanelIPs(UserOf(uuid), stale), sourceIP);
      }
    }

    method GateKeep(uuid: string, sourceIP: string, limit: Option<int>, now: int) returns (us: UserStats?, reject: bool)
      ensures us != null ==> Owned(us)
      ensures us == StatsOf(uuid) && reject == Refuses(limit, KnownOf(uuid, Stale(now)), sourceIP)
    {
      var uid := if uuid in uuidMap then uuidMap[uuid] else 0;
      us := if uid in users then users[uid] else null;
      reject := false;
      if limit.Some? {
        reject := CheckDeviceGate(us, uid, sourceIP, limit.value, now);
      }
    }

    /** What the gate knows about the owner of a UUID; None for nobody. */
    function KnownOf(uuid: string, stale: bool): Option<set<string>>
      reads this, StatsOf(uuid)
    {
      if StatsOf(uuid) == null then None else Some(KnownIPs(StatsOf(uuid), UserOf(uuid), stale))
    }

    /** Users that are gone keep their counters until their connections have drained. */
    method SetUserMap(m: map<string, int>)
      requires Valid()
      modifies this`users, this`uuidMap
      ensures Valid() && uuidMap == m
      ensures users.Keys == old(users).Keys + m.Values
      ensures forall uid :: uid in old(users) ==> users[uid] == old(users)[uid]
      ensures forall uid :: uid in users && uid !in old(users) ==> fresh(users[uid])
    {
      uuidMap := m;
      var todo: set<int> := m.Values;
      while todo != {}
        invariant todo <= m.Values
        invariant Valid() && uuidMap == m
        invariant users.Keys == old(users).Keys + (m.Values - todo)
        invariant forall uid :: uid in old(users) ==> users[uid] == old(users)[uid]
        invariant forall uid :: uid in users && uid !in old(users) ==> fresh(users[uid])
      {
        ghost var _ := SomeMember(todo);
        var uid :| uid in todo;
        if uid !in users {
          AddUser(uid);
        }
        todo := todo - {uid};
      }
    }

    method AddUser(uid: int)
      requires Valid() && uid !in users
      modifies this`users
      ensures Valid() && users.Keys == old(users).Keys + {uid} && fresh(users[uid])
      ensures users == old(users)[uid := users[uid]]
    {
      var us := new UserStats();
      assert forall c :: c in open ==> c.us != us;
      users := users[uid := us];
      forall c | c in wrapped && c.us != null
        ensures Owned(c.us)
      {
        var u :| u in old(users) && old(users)[u] == c.us;
        assert users[u] == c.us;
      }
      assert Counts(open, us) by {
        assert OpenOf(open, us) == {};
      }
    }

    method UpdateGlobalDevices(devices: map<int, set<string>>, now: int)
      requires Valid()
      modifies this`globalDevices, this`globalLastUpdate
      ensures Valid() && globalDevices == devices && globalLastUpdate == Some(now)
    {
      globalDevices, globalLastUpdate := devices, Some(now);
    }

    /** The connection to the panel is gone, and with it what it said. */
    method ClearGlobalDevices()
      requires Valid()
      modifies this`globalDevices, this`globalLastUpdate
      ensures Valid() && globalDevices == map[] && globalLastUpdate == None
    {
      globalDevices, globalLastUpdate := map[], None;
    }

    ghost predicate OpenAt(uid: int, ip: string)
      reads this
    {
      uid in users && OpenFrom(open, users[uid], ip) != {}
    }

    /** The part of the report that concerns the given users. */
    ghost function AliveAmong(ids: set<int>): map<int, set<string>>
      reads this`users, StatsIn(users)
    {
      map uid | uid in ids && uid in users && users[uid].ips != map[] :: users[uid].ips.Keys
    }

    ghost function OpenAmong(ids: set<int>): set<TrackedConn>
      reads this`users, this`open
    {
      set c | c in open && c.us != null && exists u :: u in ids && u in users && users[u] == c.us
    }

    /** The byte counters of the given users, of those that have any. */
    ghost function BytesAmong(ids: set<int>): map<int, (int, int)>
      reads this`users, StatsIn(users)
    {
      map uid | uid in ids && uid in users && (users[uid].upload > 0 || users[uid].download > 0) ::
        (users[uid].upload, users[uid].download)
    }

    lemma OneUsersBytes(ids: set<int>, uid: int)
      requires uid in users && uid !in ids
      ensures BytesAmong(ids + {uid})
              == if users[uid].upload > 0 || users[uid].download > 0
                 then BytesAmong(ids)[uid := (users[uid].upload, users[uid].download)] else BytesAmong(ids)
    {
    }

    lemma OneUserMore(ids: set<int>, uid: int)
      requires Valid() && uid in users && uid !in ids
      ensures |OpenAmong(ids + {uid})| == |OpenAmong(ids)| + users[uid].connCount
      ensures AliveAmong(ids + {uid})
              == if users[uid].ips != map[] then AliveAmong(ids)[uid := users[uid].ips.Keys] else AliveAmong(ids)
    {
      assert OpenAmong(ids + {uid}) == OpenAmong(ids) + OpenOf(open, users[uid]);
      assert OpenAmong(ids) !! OpenOf(open, users[uid]);
      assert Counts(open, users[uid]);
    }

    lemma EverybodyWalked(ids: set<int>)
      requires Valid() && ids == users.Keys
      ensures forall uid, ip :: uid in AliveAmong(ids) && ip in AliveAmong(ids)[uid] <==> OpenAt(uid, ip)
      ensures OpenAmong(ids) == set c | c in open && c.us != null
    {
      forall c | c in open && c.us != null
        ensures c in OpenAmong(ids)
      {
        assert Owned(c.us);
      }
      forall uid | uid in users
        ensures forall ip :: ip in users[uid].ips <==> OpenFrom(open, users[uid], ip) != {}
      {
        assert Counts(open, users[uid]);
      }
    }

    /** Walking the users gives what a walk over all open connections would give. */
    method GetUserTraffic() returns (traffic: map<int, (int, int)>, aliveIPs: map<int, set<string>>, connCount: int)
      requires Valid()
      ensures traffic == BytesAmong(users.Keys)
      ensures forall uid :: uid in traffic <==> uid in users && (users[uid].upload > 0 || users[uid].download > 0)
      ensures forall uid :: uid in traffic ==> traffic[uid] == (users[uid].upload, users[uid].download)
      ensures forall uid, ip :: uid in aliveIPs && ip in aliveIPs[uid] <==> OpenAt(uid, ip)
      ensures forall uid :: uid in aliveIPs ==> aliveIPs[uid] != {}
      ensures connCount == |set c | c in open && c.us != null|
    {
      traffic, aliveIPs, connCount := WalkUsers();
      EverybodyWalked(users.Keys);
    }

    ghost predicate Walked(ids: set<int>, traffic: map<int, (int, int)>, aliveIPs: map<int, set<string>>, connCount: int)
      reads this`users, this`open, StatsIn(users)
    {
      traffic == BytesAmong(ids) && aliveIPs == AliveAmong(ids) && connCount == |OpenAmong(ids)|
    }

    method WalkUsers() returns (traffic: map<int, (int, int)>, aliveIPs: map<int, set<string>>, connCount: int)
      requires Valid()
      ensures Walked(users.Keys, traffic, aliveIPs, connCount)
    {
      traffic, aliveIPs, connCount := map[], map[], 0;
      ghost var done: set<int> := {};
      var todo: set<int> := users.Keys;
      assert OpenAmong(done) == {};
      while todo != {}
        invariant todo !! done && todo + done == users.Keys
        invariant Walked(done, traffic, aliveIPs, connCount)
        decreases |todo|
      {
        ghost var _ := SomeMember(todo);
        var uid :| uid in todo;
        traffic, aliveIPs, connCount := ReportUser(uid, done, traffic, aliveIPs, connCount);
        todo, done := todo - {uid}, done + {uid};
      }
      assert done == users.Keys;
    }

    method ReportUser(uid: int, ghost done: set<int>, traffic0: map<int, (int, int)>, aliveIPs0: map<int, set<string>>, connCount0: int)
      returns (traffic: map<int, (int, int)>, aliveIPs: map<int, set<string>>, connCount: int)
      requires Valid() && uid in users && uid !in done && Walked(done, traffic0, aliveIPs0, connCount0)
      ensures Walked(done + {uid}, traffic, aliveIPs, connCount)
    {
      var us := users[uid];
      OneUsersBytes(done, uid);
      OneUserMore(done, uid);
      traffic, aliveIPs, connCount := traffic0, aliveIPs0, connCount0 + us.connCount;
      if us.upload > 0 || us.download > 0 {
        traffic := traffic[uid := (us.upload, us.download)];
      }
      if us.ips != map[] {
        aliveIPs := aliveIPs[uid := us.ips.Keys];
      }
    }
  }
}
