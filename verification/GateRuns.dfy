/**
 Both kernels, driven through any sequence of connection attempts of one user in
 which nothing closes, decide as the history theorem says.
 */
module GateRuns {
  import opened Wrappers
  import G = GateHistory
  import D = DeviceGate
  import SB = ConnTracker
  import X = XrayDispatcher

  /** `states` are what the gate knew before each attempt, and after the last one. */
  ghost predicate Decides(states: seq<set<string>>, attempts: seq<G.Attempt>, limit: int, admitted: seq<bool>) {
    && |admitted| <= |attempts| && |states| == |admitted| + 1
    && forall j :: 0 <= j < |admitted| ==>
         && admitted[j] == !D.Rejects(states[j], attempts[j].ip, limit)
         && states[j + 1] == states[j] + if admitted[j] && attempts[j].registers then {attempts[j].ip} else {}
  }

  lemma DecidesFirst(
    before: set<string>, ok: bool, states: seq<set<string>>, attempts: seq<G.Attempt>, limit: int, admitted: seq<bool>)
    requires attempts != [] && Decides(states, attempts[1..], limit, admitted)
    requires ok == !D.Rejects(before, attempts[0].ip, limit)
    requires states[0] == before + if ok && attempts[0].registers then {attempts[0].ip} else {}
    ensures Decides([before] + states, attempts, limit, [ok] + admitted)
  {
  }

  lemma {:induction false} DecidesKnown(states: seq<set<string>>, attempts: seq<G.Attempt>, limit: int, admitted: seq<bool>, j: nat)
    requires Decides(states, attempts, limit, admitted) && j <= |admitted|
    ensures states[j] == G.Known(states[0], attempts[..j], limit)
  {
    if j > 0 {
      DecidesKnown(states, attempts, limit, admitted, j - 1);
      assert attempts[..j][..j - 1] == attempts[..j - 1];
    }
  }

  lemma DecidesAdmitted(states: seq<set<string>>, attempts: seq<G.Attempt>, limit: int, admitted: seq<bool>)
    requires Decides(states, attempts, limit, admitted) && |admitted| == |attempts|
    ensures forall i :: 0 <= i < |attempts| ==> admitted[i] == G.Admitted(states[0], attempts, limit, i)
  {
    forall i | 0 <= i < |attempts|
      ensures admitted[i] == G.Admitted(states[0], attempts, limit, i)
    {
      DecidesKnown(states, attempts, limit, admitted, i);
    }
  }

  predicate AllRegister(attempts: seq<G.Attempt>, times: seq<int>) {
    |times| == |attempts| && forall i :: 0 <= i < |attempts| ==> attempts[i].registers
  }

  /** The panel's list is stale at all of these times, or fresh at all of them. */
  predicate AllSame(t: SB.ConnTracker, times: seq<int>, stale: bool)
    reads t`globalLastUpdate
  {
    forall i :: 0 <= i < |times| ==> t.Stale(times[i]) == stale
  }

  lemma NextSame(t: SB.ConnTracker, attempts: seq<G.Attempt>, times: seq<int>, stale: bool)
    requires attempts != [] && AllRegister(attempts, times) && AllSame(t, times, stale)
    ensures attempts[0].registers && t.Stale(times[0]) == stale
    ensures AllRegister(attempts[1..], times[1..]) && AllSame(t, times[1..], stale)
  {
  }

  method SingBoxAttempt(t: SB.ConnTracker, uuid: string, ip: string, limit: int, stale: bool, now: int) returns (ok: bool)
    requires t.Valid() && t.KnownOf(uuid, stale).Some? && t.Stale(now) == stale
    modifies t`wrapped, t`open, t.StatsOf(uuid)
    ensures t.Valid() && t.KnownOf(uuid, stale).Some?
    ensures ok == !D.Rejects(old(t.KnownOf(uuid, stale)).value, ip, limit)
    ensures t.KnownOf(uuid, stale).value == old(t.KnownOf(uuid, stale)).value + if ok then {ip} else {}
  {
    var c := t.RoutedConnection(uuid, ip, Some(limit), now);
    return c != null;
  }

  method SingBoxSequence(t: SB.ConnTracker, uuid: string, limit: int, stale: bool, attempts: seq<G.Attempt>, times: seq<int>)
    returns (admitted: seq<bool>, ghost states: seq<set<string>>)
    requires t.Valid() && t.KnownOf(uuid, stale).Some?
    requires AllRegister(attempts, times) && AllSame(t, times, stale)
    modifies t`wrapped, t`open, t.StatsOf(uuid)
    ensures |admitted| == |attempts| && Decides(states, attempts, limit, admitted)
    ensures states[0] == old(t.KnownOf(uuid, stale)).value
    decreases |attempts|
  {
    ghost var before := t.KnownOf(uuid, stale).value;
    if attempts == [] {
      return [], [before];
    }
    NextSame(t, attempts, times, stale);
    var ok := SingBoxAttempt(t, uuid, attempts[0].ip, limit, stale, times[0]);
    admitted, states := SingBoxSequence(t, uuid, limit, stale, attempts[1..], times[1..]);
    DecidesFirst(before, ok, states, attempts, limit, admitted);
    admitted, states := [ok] + admitted, [before] + states;
  }

  /** sing-box: every admitted attempt registers; a fresh panel list adds what other nodes report of the user. */
  method SingBoxAttempts(t: SB.ConnTracker, uuid: string, limit: int, stale: bool, attempts: seq<G.Attempt>, times: seq<int>)
    returns (admitted: seq<bool>)
    requires t.Valid() && t.KnownOf(uuid, stale).Some?
    requires AllRegister(attempts, times) && AllSame(t, times, stale)
    modifies t`wrapped, t`open, t.StatsOf(uuid)
    ensures |admitted| == |attempts|
    ensures forall i :: 0 <= i < |attempts| ==>
              admitted[i] == G.Admitted(old(t.KnownOf(uuid, stale)).value, attempts, limit, i)
    ensures uuid in t.uuidMap && !stale && t.uuidMap[uuid] in t.globalDevices ==>
              forall i :: 0 <= i < |attempts| ==>
                admitted[i] == G.Admitted(old(t.StatsOf(uuid).ips.Keys) + t.globalDevices[t.uuidMap[uuid]], attempts, limit, i)
    ensures uuid in t.uuidMap && (stale || t.uuidMap[uuid] !in t.globalDevices) ==>
              forall i :: 0 <= i < |attempts| ==>
                admitted[i] == G.Admitted(old(t.StatsOf(uuid).ips.Keys), attempts, limit, i)
  {
    ghost var states;
    t.KnownIsListed(t.StatsOf(uuid), t.UserOf(uuid), stale);
    admitted, states := SingBoxSequence(t, uuid, limit, stale, attempts, times);
    DecidesAdmitted(states, attempts, limit, admitted);
  }

  method XrayAttempt(d: X.LimitDispatcher, email: string, ip: string, isTCP: bool) returns (ok: bool)
    requires d.Valid() && d.Limited(email)
    modifies d`limitedIPs, d`unlimitedIPs, d`connCount, d`tracked, d`open
    ensures d.Valid()
    ensures ok == !D.Rejects(old(d.KnownIPs(email)), ip, d.deviceLimits[email])
    ensures d.KnownIPs(email) == old(d.KnownIPs(email)) + if ok && isTCP then {ip} else {}
  {
    var rejected, l := d.Dispatch(email, ip, isTCP, true);
    return !rejected;
  }

  method XraySequence(d: X.LimitDispatcher, email: string, attempts: seq<G.Attempt>)
    returns (admitted: seq<bool>, ghost states: seq<set<string>>)
    requires d.Valid() && d.Limited(email)
    modifies d`limitedIPs, d`unlimitedIPs, d`connCount, d`tracked, d`open
    ensures |admitted| == |attempts| && Decides(states, attempts, d.deviceLimits[email], admitted)
    ensures states[0] == old(d.KnownIPs(email))
    decreases |attempts|
  {
    ghost var before := d.KnownIPs(email);
    if attempts == [] {
      return [], [before];
    }
    var ok := XrayAttempt(d, email, attempts[0].ip, attempts[0].registers);
    admitted, states := XraySequence(d, email, attempts[1..]);
    DecidesFirst(before, ok, states, attempts, d.deviceLimits[email], admitted);
    admitted, states := [ok] + admitted, [before] + states;
  }

  /** xray: only TCP attempts register. */
  method XrayAttempts(d: X.LimitDispatcher, email: string, attempts: seq<G.Attempt>) returns (admitted: seq<bool>)
    requires d.Valid() && d.Limited(email)
    modifies d`limitedIPs, d`unlimitedIPs, d`connCount, d`tracked, d`open
    ensures |admitted| == |attempts|
    ensures forall i :: 0 <= i < |attempts| ==>
              admitted[i] == G.Admitted(old(d.KnownIPs(email)), attempts, d.deviceLimits[email], i)
  {
    ghost var states;
    admitted, states := XraySequence(d, email, attempts);
    DecidesAdmitted(states, attempts, d.deviceLimits[email], admitted);
  }
}
