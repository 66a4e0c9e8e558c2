/**
 The traffic tracker: turns the kernel's cumulative per-user counters into
 deltas, accumulates them between reports and hands them out.
 */
module Tracker {
  import opened Wrappers
  import opened Traffic

  // ----- what one Process call counts -----

  /** A reading below the previous one means that the kernel restarted from zero. */
  function Delta(prev: int, cum: int): int {
    if cum - prev < 0 then cum else cum - prev
  }

  function UserDelta(prev: Bytes, cum: Bytes): Bytes {
    Bytes(Delta(prev.up, cum.up), Delta(prev.down, cum.down))
  }

  predicate Active(delta: Bytes) {
    delta.up > 0 || delta.down > 0
  }

  /** The traffic that one tick adds to the pending buffer. */
  function TickDelta(seen: TrafficMap, cum: TrafficMap): TrafficMap {
    map uid | uid in cum && Active(UserDelta(Get(seen, uid), cum[uid]))
      :: UserDelta(Get(seen, uid), cum[uid])
  }

  /** The part of a map that a loop over its users has handled. */
  function Only(m: TrafficMap, done: set<int>): TrafficMap {
    map uid | uid in done && uid in m :: m[uid]
  }

  lemma OnlyOneMore(m: TrafficMap, done: set<int>, uid: int)
    requires uid in m && uid !in done
    ensures Only(m, done + {uid}) == Only(m, done)[uid := m[uid]]
  {
  }

  lemma TickDeltaOneMore(seen: TrafficMap, cum: TrafficMap, uid: int, c: Bytes)
    requires uid !in cum
    ensures TickDelta(seen, cum[uid := c])
            == (var delta := UserDelta(Get(seen, uid), c);
                if Active(delta) then TickDelta(seen, cum)[uid := delta] else TickDelta(seen, cum))
  {
    var delta := UserDelta(Get(seen, uid), c);
    var lhs, sofar := TickDelta(seen, cum[uid := c]), TickDelta(seen, cum);
    forall u
      ensures u in lhs <==> u in if Active(delta) then sofar[uid := delta] else sofar
      ensures u in lhs && u != uid ==> lhs[u] == sofar[u]
    {
      if u != uid {
        assert cum[uid := c].Keys - {uid} == cum.Keys;
        assert u in cum ==> cum[uid := c][u] == cum[u];
      }
    }
  }

  lemma PlusOneMore(pending: TrafficMap, delta: TrafficMap, uid: int, d: Bytes)
    requires uid !in delta
    ensures Plus(pending, delta[uid := d]) == Plus(pending, delta)[uid := Sum(Get(Plus(pending, delta), uid), d)]
  {
    var lhs, sofar := Plus(pending, delta[uid := d]), Plus(pending, delta);
    assert lhs.Keys == sofar.Keys + {uid};
    forall u | u in lhs
      ensures lhs[u] == sofar[uid := Sum(Get(sofar, uid), d)][u]
    {
      if u == uid {
        assert Get(sofar, uid) == Get(pending, uid);
      }
    }
  }

  lemma OneMoreUser(pending: TrafficMap, seen: TrafficMap, cum: TrafficMap, done: set<int>, uid: int)
    requires uid in cum && uid !in done
    ensures (seen + Only(cum, done))[uid := cum[uid]] == seen + Only(cum, done + {uid})
    ensures Get(seen + Only(cum, done), uid) == Get(seen, uid)
    ensures var delta := UserDelta(Get(seen, uid), cum[uid]);
            var sofar := Plus(pending, TickDelta(seen, Only(cum, done)));
            Plus(pending, TickDelta(seen, Only(cum, done + {uid})))
            == if Active(delta) then sofar[uid := Sum(Get(sofar, uid), delta)] else sofar
  {
    OnlyOneMore(cum, done, uid);
    TickDeltaOneMore(seen, Only(cum, done), uid, cum[uid]);
    PlusOneMore(pending, TickDelta(seen, Only(cum, done)), uid, UserDelta(Get(seen, uid), cum[uid]));
  }

  class Tracker {
    var lastSeen: TrafficMap
    var pendingTraffic: TrafficMap

    constructor ()
      ensures lastSeen == map[] && pendingTraffic == map[]
    {
      lastSeen, pendingTraffic := map[], map[];
    }

    /** The body of the loop over the users. */
    method CountUser(uid: int, cum: Bytes)
      modifies this
      ensures lastSeen == old(lastSeen)[uid := cum]
      ensures var delta := UserDelta(Get(old(lastSeen), uid), cum);
              pendingTraffic == if Active(delta)
                                then old(pendingTraffic)[uid := Sum(Get(old(pendingTraffic), uid), delta)]
                                else old(pendingTraffic)
    {
      var prev := Get(lastSeen, uid);
      var deltaUp, deltaDown := cum.up - prev.up, cum.down - prev.down;
      if deltaUp < 0 {
        deltaUp := cum.up;
      }
      if deltaDown < 0 {
        deltaDown := cum.down;
      }
      lastSeen := lastSeen[uid := cum];
      if deltaUp > 0 || deltaDown > 0 {
        var cur := Get(pendingTraffic, uid);
        pendingTraffic := pendingTraffic[uid := Bytes(cur.up + deltaUp, cur.down + deltaDown)];
      }
    }

    method Process(cumTraffic: TrafficMap)
      modifies this
      ensures lastSeen == old(lastSeen) + cumTraffic
      ensures pendingTraffic == Plus(old(pendingTraffic), TickDelta(old(lastSeen), cumTraffic))
    {
      ghost var seen, pending := lastSeen, pendingTraffic;
      var todo: set<int> := cumTraffic.Keys;
      ghost var done: set<int> := {};
      while todo != {}
        invariant todo !! done && todo + done == cumTraffic.Keys
        invariant lastSeen == seen + Only(cumTraffic, done)
        invariant pendingTraffic == Plus(pending, TickDelta(seen, Only(cumTraffic, done)))
      {
        ghost var _ := SomeMember(todo);
        var uid :| uid in todo;
        var cum := cumTraffic[uid];
        OneMoreUser(pending, seen, cumTraffic, done, uid);
        CountUser(uid, cum);
        todo, done := todo - {uid}, done + {uid};
      }
      assert Only(cumTraffic, done) == cumTraffic;
    }

    method FlushTraffic() returns (data: TrafficMap)
      modifies this
      ensures data == old(pendingTraffic) && pendingTraffic == map[]
      ensures lastSeen == old(lastSeen)
    {
      data := pendingTraffic;
      pendingTraffic := map[];
    }

    method RestoreTraffic(data: TrafficMap)
      modifies this
      ensures pendingTraffic == Plus(old(pendingTraffic), data)
      ensures lastSeen == old(lastSeen)
    {
      var todo: set<int> := data.Keys;
      ghost var done: set<int> := {};
      while todo != {}
        invariant todo !! done && todo + done == data.Keys
        invariant lastSeen == old(lastSeen)
        invariant pendingTraffic == Plus(old(pendingTraffic), Only(data, done))
      {
        ghost var _ := SomeMember(todo);
        var uid :| uid in todo;
        OnlyOneMore(data, done, uid);
        PlusOneMore(old(pendingTraffic), Only(data, done), uid, data[uid]);
        var cur := Get(pendingTraffic, uid);
        pendingTraffic := pendingTraffic[uid := Bytes(cur.up + data[uid].up, cur.down + data[uid].down)];
        todo, done := todo - {uid}, done + {uid};
      }
      assert Only(data, done) == data;
    }
  }

  // ----- whole runs of the tracker -----

  datatype Event =
    | Process(cum: TrafficMap)
    | Flush
    | Restore(data: TrafficMap)

  datatype State = State(lastSeen: TrafficMap, pending: TrafficMap)

  const FRESH := State(map[], map[])

  /** The effect of one call on the two fields, as the methods above promise it. */
  function Apply(s: State, e: Event): State {
    match e
    case Process(cum) => State(s.lastSeen + cum, Plus(s.pending, TickDelta(s.lastSeen, cum)))
    case Flush => s.(pending := map[])
    case Restore(data) => s.(pending := Plus(s.pending, data))
  }

  function Run(events: seq<Event>): State {
    if events == [] then FRESH
    else Apply(Run(events[..|events| - 1]), events[|events| - 1])
  }

  predicate Readings(events: seq<Event>) {
    forall i :: 0 <= i < |events| && events[i].Process? ==> NonNegative(events[i].cum)
  }

  /** All bytes handed out by flushes, less those given back by restores. */
  function NetFlushed(events: seq<Event>, uid: int, d: Direction): int {
    if events == [] then 0
    else
      var n := |events| - 1;
      NetFlushed(events[..n], uid, d)
      + match events[n]
        case Process(_) => 0
        case Flush => At(Run(events[..n]).pending, uid, d)
        case Restore(data) => -At(data, uid, d)
  }

  /** The successive cumulative readings of one counter. */
  function ReadingsOf(events: seq<Event>, uid: int, d: Direction): seq<int> {
    if events == [] then []
    else
      var n := |events| - 1;
      ReadingsOf(events[..n], uid, d)
      + if events[n].Process? && uid in events[n].cum then [Side(events[n].cum[uid], d)] else []
  }

  /** What the delta rule counts over a sequence of readings. */
  function Counted(prev: int, readings: seq<int>): int
    decreases |readings|
  {
    if readings == [] then 0
    else Delta(prev, readings[0]) + Counted(readings[0], readings[1..])
  }

  function LastOr(default: int, readings: seq<int>): int {
    if readings == [] then default else readings[|readings| - 1]
  }

  lemma {:induction false} CountedAppend(prev: int, a: seq<int>, b: seq<int>)
    ensures Counted(prev, a + b) == Counted(prev, a) + Counted(LastOr(prev, a), b)
    decreases |a|
  {
    if a == [] {
      assert a + b == b;
    } else {
      assert (a + b)[1..] == a[1..] + b;
      CountedAppend(a[0], a[1..], b);
    }
  }

  lemma TickDeltaAt(seen: TrafficMap, cum: TrafficMap, uid: int, d: Direction)
    requires NonNegative(seen) && NonNegative(cum)
    ensures At(TickDelta(seen, cum), uid, d) ==
            if uid in cum then Delta(At(seen, uid, d), Side(cum[uid], d)) else 0
  {
  }

  /**
   Whatever the interleaving of readings, flushes and restores: what was handed
   out plus what is still buffered is exactly what the delta rule counted.
   */
  lemma {:induction false} RunConserves(events: seq<Event>, uid: int, d: Direction)
    requires Readings(events)
    ensures NonNegative(Run(events).lastSeen)
    ensures At(Run(events).lastSeen, uid, d) == LastOr(0, ReadingsOf(events, uid, d))
    ensures NetFlushed(events, uid, d) + At(Run(events).pending, uid, d)
            == Counted(0, ReadingsOf(events, uid, d))
  {
    if events != [] {
      var n := |events| - 1;
      var before := events[..n];
      RunConserves(before, uid, d);
      var s := Run(before);
      if !(events[n].Process? && uid in events[n].cum) {
        assert ReadingsOf(events, uid, d) == ReadingsOf(before, uid, d);
      }
      match events[n]
      case Process(cum) =>
        TickDeltaAt(s.lastSeen, cum, uid, d);
        PlusAt(s.pending, TickDelta(s.lastSeen, cum), uid, d);
        if uid in cum {
          CountedAppend(0, ReadingsOf(before, uid, d), [Side(cum[uid], d)]);
          assert Counted(At(s.lastSeen, uid, d), [Side(cum[uid], d)]) == Delta(At(s.lastSeen, uid, d), Side(cum[uid], d));
        }
      case Flush =>
      case Restore(data) =>
        PlusAt(s.pending, data, uid, d);
    }
  }

  predicate NonDecreasing(readings: seq<int>) {
    forall i, j :: 0 <= i < j < |readings| ==> readings[i] <= readings[j]
  }

  lemma {:induction false} CountedTelescopes(prev: int, readings: seq<int>)
    requires NonDecreasing(readings)
    requires readings != [] ==> prev <= readings[0]
    ensures Counted(prev, readings) == LastOr(prev, readings) - prev
    decreases |readings|
  {
    if readings != [] {
      CountedTelescopes(readings[0], readings[1..]);
    }
  }

  /** While a counter never decreases, exactly its last reading has been counted. */
  lemma MonotoneCounterIsExact(events: seq<Event>, uid: int, d: Direction)
    requires Readings(events)
    requires NonDecreasing(ReadingsOf(events, uid, d))
    ensures NetFlushed(events, uid, d) + At(Run(events).pending, uid, d) == At(Run(events).lastSeen, uid, d)
  {
    RunConserves(events, uid, d);
    ReadingsNonNegative(events, uid, d);
    CountedTelescopes(0, ReadingsOf(events, uid, d));
  }

  lemma {:induction false} ReadingsNonNegative(events: seq<Event>, uid: int, d: Direction)
    requires Readings(events)
    ensures forall i :: 0 <= i < |ReadingsOf(events, uid, d)| ==> ReadingsOf(events, uid, d)[i] >= 0
  {
    if events != [] {
      ReadingsNonNegative(events[..|events| - 1], uid, d);
    }
  }

  // ----- kernel restarts -----

  /** The readings of one kernel lifetime: counters start at zero and never decrease. */
  predicate Epoch(readings: seq<int>) {
    readings != [] && NonDecreasing(readings) && readings[0] >= 0
  }

  function Flatten(epochs: seq<seq<int>>): seq<int> {
    if epochs == [] then [] else epochs[0] + Flatten(epochs[1..])
  }

  /** The bytes that really passed: each lifetime ends at its last reading. */
  function TrueTotal(epochs: seq<seq<int>>): int {
    if epochs == [] then 0 else LastOr(0, epochs[0]) + TrueTotal(epochs[1..])
  }

  /** The restart before `epochs[0]` shows as a drop below the last reading, or nothing was counted yet. */
  predicate RestartsVisible(prev: int, epochs: seq<seq<int>>)
    decreases |epochs|
  {
    epochs == []
    || (epochs[0] != []
        && (prev == 0 || epochs[0][0] < prev)
        && RestartsVisible(LastOr(0, epochs[0]), epochs[1..]))
  }

  /** Restarts never make the tracker over-count, and it is exact just when every restart is visible. */
  lemma {:induction false} RestartsNeverOverCount(prev: int, epochs: seq<seq<int>>)
    requires prev >= 0
    requires forall i :: 0 <= i < |epochs| ==> Epoch(epochs[i])
    ensures Counted(prev, Flatten(epochs)) <= TrueTotal(epochs)
    ensures Counted(prev, Flatten(epochs)) == TrueTotal(epochs) <==> RestartsVisible(prev, epochs)
    decreases |epochs|
  {
    if epochs != [] {
      var e := epochs[0];
      CountedAppend(prev, e, Flatten(epochs[1..]));
      CountedTelescopes(e[0], e[1..]);
      RestartsNeverOverCount(LastOr(0, e), epochs[1..]);
    }
  }

  /** The same for whole runs: across kernel restarts no counter is ever reported above its true total. */
  lemma RunNeverOverCounts(events: seq<Event>, epochs: seq<seq<int>>, uid: int, d: Direction)
    requires Readings(events)
    requires forall i :: 0 <= i < |epochs| ==> Epoch(epochs[i])
    requires ReadingsOf(events, uid, d) == Flatten(epochs)
    ensures NetFlushed(events, uid, d) + At(Run(events).pending, uid, d) <= TrueTotal(epochs)
    ensures NetFlushed(events, uid, d) + At(Run(events).pending, uid, d) == TrueTotal(epochs)
            <==> RestartsVisible(0, epochs)
  {
    RunConserves(events, uid, d);
    RestartsNeverOverCount(0, epochs);
  }
}
