/**
 From the kernel's counters to the panel's books: the settlement protocol with ticks
 that come from readings. A new service starts with a new tracker and a new kernel.
 */
module EndToEnd {
  import opened Traffic
  import T = Tracker
  import opened Settlement
  import opened SettlementProof
  import opened SettlementResults

  datatype Input =
    | Read(cum: TrafficMap)  // one call of Process
    | Do(action: Action)     // everything else

  datatype System = System(world: World, lastSeen: TrafficMap)

  function ActionOf(s: System, i: Input): Action {
    match i
    case Read(cum) => Tick(T.TickDelta(s.lastSeen, cum))
    case Do(a) => a
  }

  predicate Can(s: System, i: Input) {
    Enabled(s.world, ActionOf(s, i)) && match i case Read(cum) => NonNegative(cum) case Do(a) => !a.Tick?
  }

  function Advance(s: System, i: Input): System
    requires Can(s, i)
  {
    System(Step(s.world, ActionOf(s, i)),
           match i
           case Read(cum) => s.lastSeen + cum
           case Do(a) => if Restarts(a) then map[] else s.lastSeen)
  }

  ghost predicate Leads(s: System, inputs: seq<Input>, s': System)
    decreases |inputs|
  {
    if inputs == [] then s == s'
    else Can(s, inputs[0]) && Leads(Advance(s, inputs[0]), inputs[1..], s')
  }

  function ActionsOf(s: System, inputs: seq<Input>): seq<Action>
    decreases |inputs|
  {
    if inputs == [] || !Can(s, inputs[0]) then []
    else [ActionOf(s, inputs[0])] + ActionsOf(Advance(s, inputs[0]), inputs[1..])
  }

  lemma {:induction false} LeadsReaches(s: System, inputs: seq<Input>, s': System)
    requires Leads(s, inputs, s')
    ensures Reaches(s.world, ActionsOf(s, inputs), s'.world)
    decreases |inputs|
  {
    if inputs != [] {
      LeadsReaches(Advance(s, inputs[0]), inputs[1..], s');
      var actions := ActionsOf(s, inputs);
      assert actions[0] == ActionOf(s, inputs[0]) && actions[1..] == ActionsOf(Advance(s, inputs[0]), inputs[1..]);
    }
  }

  // ----- what the kernel carried -----

  /** The readings of one counter, one list for the life of each service. */
  function Lives(inputs: seq<Input>, uid: int, d: Direction): (lives: seq<seq<int>>)
    ensures |lives| >= 1
    decreases |inputs|
  {
    if inputs == [] then [[]]
    else
      var rest := Lives(inputs[1..], uid, d);
      match inputs[0]
      case Read(cum) => if uid in cum then [[Side(cum[uid], d)] + rest[0]] + rest[1..] else rest
      case Do(a) => if Restarts(a) then [[]] + rest else rest
  }

  function CountedInAll(lives: seq<seq<int>>): int
    decreases |lives|
  {
    if lives == [] then 0 else T.Counted(0, lives[0]) + CountedInAll(lives[1..])
  }

  lemma CountedGrows(w: World, a: Action, uid: int, d: Direction)
    requires Enabled(w, a)
    ensures CountedBytes(Step(w, a).log, uid, d)
            == CountedBytes(w.log, uid, d) + if a.Tick? then At(a.delta, uid, d) else 0
  {
    if a.Tick? {
      assert (w.log + [a.delta])[..|w.log|] == w.log;
    } else {
      LogStays(w, a);
    }
  }

  lemma LogStays(w: World, a: Action)
    requires Enabled(w, a) && !a.Tick?
    ensures Step(w, a).log == w.log
  {
  }

  /** What is counted over the lives, when `prev` is what the first of them has seen already. */
  function CountedFrom(prev: int, lives: seq<seq<int>>): int
    requires |lives| >= 1
  {
    T.Counted(prev, lives[0]) + CountedInAll(lives[1..])
  }

  lemma FirstReading(prev: int, x: int, rest: seq<seq<int>>)
    requires |rest| >= 1
    ensures CountedFrom(prev, [[x] + rest[0]] + rest[1..]) == T.Delta(prev, x) + CountedFrom(x, rest)
  {
    assert ([x] + rest[0])[1..] == rest[0];
  }

  lemma FirstRestart(prev: int, rest: seq<seq<int>>)
    requires |rest| >= 1
    ensures CountedFrom(prev, [[]] + rest) == CountedFrom(0, rest)
  {
    assert ([[]] + rest)[1..] == rest;
  }

  lemma SeenNext(s: System, i: Input, uid: int, d: Direction)
    requires Can(s, i) && NonNegative(s.lastSeen)
    ensures NonNegative(Advance(s, i).lastSeen)
    ensures At(Advance(s, i).lastSeen, uid, d)
            == if i.Read? && uid in i.cum then Side(i.cum[uid], d)
               else if i.Do? && Restarts(i.action) then 0
               else At(s.lastSeen, uid, d)
    ensures CountedBytes(Advance(s, i).world.log, uid, d)
            == CountedBytes(s.world.log, uid, d)
               + if i.Read? && uid in i.cum then T.Delta(At(s.lastSeen, uid, d), Side(i.cum[uid], d)) else 0
  {
    CountedGrows(s.world, ActionOf(s, i), uid, d);
    if i.Read? {
      T.TickDeltaAt(s.lastSeen, i.cum, uid, d);
    }
  }

  /** The ticks are exactly what the delta rule counts over the readings. */
  lemma {:induction false} TicksAreCounted(s: System, inputs: seq<Input>, s': System, uid: int, d: Direction)
    requires Leads(s, inputs, s') && NonNegative(s.lastSeen)
    ensures CountedBytes(s'.world.log, uid, d)
            == CountedBytes(s.world.log, uid, d) + CountedFrom(At(s.lastSeen, uid, d), Lives(inputs, uid, d))
    decreases |inputs|
  {
    if inputs != [] {
      var i, rest, prev := inputs[0], Lives(inputs[1..], uid, d), At(s.lastSeen, uid, d);
      SeenNext(s, i, uid, d);
      TicksAreCounted(Advance(s, i), inputs[1..], s', uid, d);
      if i.Read? && uid in i.cum {
        FirstReading(prev, Side(i.cum[uid], d), rest);
      } else if i.Do? && Restarts(i.action) {
        FirstRestart(prev, rest);
      }
    }
  }

  /** The kernels of each life, cut where the kernel restarted within it. */
  predicate CutsInto(lives: seq<seq<int>>, epochs: seq<seq<seq<int>>>) {
    && |lives| == |epochs|
    && forall k :: 0 <= k < |lives| ==>
         lives[k] == T.Flatten(epochs[k]) && forall i :: 0 <= i < |epochs[k]| ==> T.Epoch(epochs[k][i])
  }

  /** Every restart of a kernel within a life shows as a drop below the last reading. */
  predicate AllVisible(epochs: seq<seq<seq<int>>>)
    decreases |epochs|
  {
    epochs != [] ==> T.RestartsVisible(0, epochs[0]) && AllVisible(epochs[1..])
  }

  function CarriedInAll(epochs: seq<seq<seq<int>>>): int
    decreases |epochs|
  {
    if epochs == [] then 0 else T.TrueTotal(epochs[0]) + CarriedInAll(epochs[1..])
  }

  lemma {:induction false} NeverOverCarried(lives: seq<seq<int>>, epochs: seq<seq<seq<int>>>)
    requires CutsInto(lives, epochs)
    ensures CountedInAll(lives) <= CarriedInAll(epochs)
    ensures CountedInAll(lives) == CarriedInAll(epochs) <==> AllVisible(epochs)
    decreases |lives|
  {
    if lives != [] {
      T.RestartsNeverOverCount(0, epochs[0]);
      assert forall k :: 0 <= k < |lives[1..]| ==> lives[1..][k] == lives[k + 1] && epochs[1..][k] == epochs[k + 1];
      assert epochs == [epochs[0]] + epochs[1..];
      NeverOverCarried(lives[1..], epochs[1..]);
    }
  }

  function Boot(durable: bool): System {
    System(Init(durable), map[])
  }

  /**
   Over any careful run, the bytes settled, in doubt and still in the tracker never
   exceed what the kernels really carried, for every user and direction.
   */
  lemma SettledNeverExceedsCarried(
    durable: bool, inputs: seq<Input>, s: System, epochs: seq<seq<seq<int>>>, uid: int, d: Direction)
    requires Leads(Boot(durable), inputs, s) && Careful(Init(durable), ActionsOf(Boot(durable), inputs))
    requires CutsInto(Lives(inputs, uid, d), epochs)
    ensures SettledBytes(s.world, |s.world.ledger|, uid, d) <= CarriedInAll(epochs)
    ensures SettledBytes(s.world, |s.world.ledger|, uid, d) + UnsettledBytes(s.world, uid, d) + At(s.world.store.tracker, uid, d)
            <= CarriedInAll(epochs)
  {
    LeadsReaches(Boot(durable), inputs, s);
    AtMostOnce(durable, ActionsOf(Boot(durable), inputs), s.world, uid, d);
    TicksAreCounted(Boot(durable), inputs, s, uid, d);
    NeverOverCarried(Lives(inputs, uid, d), epochs);
  }

  /** In an orderly run they are exactly what was carried, just when every kernel restart shows in the readings. */
  lemma OrderlyCountsCarriedIff(
    durable: bool, inputs: seq<Input>, s: System, epochs: seq<seq<seq<int>>>, uid: int, d: Direction)
    requires Leads(Boot(durable), inputs, s) && Orderly(Init(durable), ActionsOf(Boot(durable), inputs))
    requires CutsInto(Lives(inputs, uid, d), epochs)
    ensures SettledBytes(s.world, |s.world.ledger|, uid, d) + UnsettledBytes(s.world, uid, d) + At(s.world.store.tracker, uid, d)
            == CarriedInAll(epochs)
            <==> AllVisible(epochs)
  {
    LeadsReaches(Boot(durable), inputs, s);
    OrderlyRunsConserve(durable, ActionsOf(Boot(durable), inputs), s.world, uid, d);
    TicksAreCounted(Boot(durable), inputs, s, uid, d);
    NeverOverCarried(Lives(inputs, uid, d), epochs);
  }
}
