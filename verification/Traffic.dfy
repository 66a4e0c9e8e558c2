/**
 Per-user byte counters and the arithmetic on them: `map[int][2]int64` in the
 source, an upload and a download figure per user ID.
 */
module Traffic {
  datatype Direction = Up | Down

  datatype Bytes = Bytes(up: int, down: int)

  type TrafficMap = map<int, Bytes>

  const NO_BYTES := Bytes(0, 0)

  function Side(b: Bytes, d: Direction): int {
    if d.Up? then b.up else b.down
  }

  /** Go's map read: a missing user reads as zero. */
  function Get(m: TrafficMap, uid: int): Bytes {
    if uid in m then m[uid] else NO_BYTES
  }

  function At(m: TrafficMap, uid: int, d: Direction): int {
    Side(Get(m, uid), d)
  }

  function Sum(a: Bytes, b: Bytes): Bytes {
    Bytes(a.up + b.up, a.down + b.down)
  }

  /** Pointwise addition; the key set is the union of both key sets. */
  function Plus(a: TrafficMap, b: TrafficMap): TrafficMap {
    map uid | uid in a.Keys + b.Keys :: Sum(Get(a, uid), Get(b, uid))
  }

  predicate NonNegative(m: TrafficMap) {
    forall uid :: uid in m ==> m[uid].up >= 0 && m[uid].down >= 0
  }

  lemma PlusAt(a: TrafficMap, b: TrafficMap, uid: int, d: Direction)
    ensures At(Plus(a, b), uid, d) == At(a, uid, d) + At(b, uid, d)
  {
    assert Get(Plus(a, b), uid) == Sum(Get(a, uid), Get(b, uid));
  }

  lemma PlusEmpty(m: TrafficMap)
    ensures Plus(map[], m) == m
  {
    assert Plus(map[], m).Keys == m.Keys;
  }

  /** What the log entries numbered in `ticks` add up to for one user and direction. */
  function Share(log: seq<TrafficMap>, ticks: set<nat>, uid: int, d: Direction): int {
    if |log| == 0 then 0
    else
      var n := |log| - 1;
      Share(log[..n], ticks, uid, d) + (if n in ticks then At(log[n], uid, d) else 0)
  }

  /** Every tick number refers to a log entry. */
  predicate Within(ticks: set<nat>, log: seq<TrafficMap>) {
    forall t :: t in ticks ==> t < |log|
  }

  lemma {:induction false} ShareUnion(log: seq<TrafficMap>, a: set<nat>, b: set<nat>, uid: int, d: Direction)
    requires a !! b
    ensures Share(log, a + b, uid, d) == Share(log, a, uid, d) + Share(log, b, uid, d)
  {
    if |log| > 0 {
      ShareUnion(log[..|log| - 1], a, b, uid, d);
    }
  }

  /** Only membership of the log's own indices matters. */
  lemma {:induction false} ShareAgree(log: seq<TrafficMap>, a: set<nat>, b: set<nat>, uid: int, d: Direction)
    requires forall t: nat :: t < |log| ==> (t in a <==> t in b)
    ensures Share(log, a, uid, d) == Share(log, b, uid, d)
  {
    if |log| > 0 {
      ShareAgree(log[..|log| - 1], a, b, uid, d);
    }
  }

  lemma ShareExtend(log: seq<TrafficMap>, delta: TrafficMap, ticks: set<nat>, uid: int, d: Direction)
    requires Within(ticks, log)
    ensures Share(log + [delta], ticks, uid, d) == Share(log, ticks, uid, d)
    ensures Share(log + [delta], ticks + {|log|}, uid, d) == Share(log, ticks, uid, d) + At(delta, uid, d)
  {
    assert (log + [delta])[..|log|] == log;
    ShareAgree(log, ticks, ticks + {|log|}, uid, d);
  }

  lemma {:induction false} ShareEmpty(log: seq<TrafficMap>, uid: int, d: Direction)
    ensures Share(log, {}, uid, d) == 0
  {
    if |log| > 0 {
      ShareEmpty(log[..|log| - 1], uid, d);
    }
  }

  lemma {:induction false} ShareMonotone(log: seq<TrafficMap>, a: set<nat>, b: set<nat>, uid: int, d: Direction)
    requires a <= b
    requires forall t :: 0 <= t < |log| ==> NonNegative(log[t])
    ensures Share(log, a, uid, d) <= Share(log, b, uid, d)
  {
    if |log| > 0 {
      ShareMonotone(log[..|log| - 1], a, b, uid, d);
    }
  }
}
