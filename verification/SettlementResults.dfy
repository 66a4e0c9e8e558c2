/** What the settlement protocol guarantees over every run, stated on bytes. */
module SettlementResults {
  import opened Wrappers
  import opened Traffic
  import opened Spool
  import opened Reporting
  import opened Settlement
  import opened SettlementProof

  // ----- byte counts of a world -----

  function SettledBytes(w: World, n: nat, uid: int, d: Direction): int
    requires n <= |w.ledger|
  {
    if n == 0 then 0
    else
      var id := w.ledger[n - 1];
      SettledBytes(w, n - 1, uid, d) + if id in w.issued then At(w.issued[id].traffic, uid, d) else 0
  }

  function UnsettledBytes(w: World, uid: int, d: Direction): int {
    if w.store.pending.Some? && !(w.store.pending.value.id.Some? && w.store.pending.value.id.value in w.ledger)
    then At(w.store.pending.value.traffic, uid, d) else 0
  }

  function CountedBytes(log: seq<TrafficMap>, uid: int, d: Direction): int {
    if |log| == 0 then 0 else CountedBytes(log[..|log| - 1], uid, d) + At(log[|log| - 1], uid, d)
  }

  function PrefixTicks(w: World, n: nat): set<nat>
    requires n <= |w.ledger|
  {
    if n == 0 then {}
    else PrefixTicks(w, n - 1) + if w.ledger[n - 1] in w.origin then w.origin[w.ledger[n - 1]] else {}
  }

  function UnsettledTicks(w: World): set<nat> {
    if w.store.pending.Some? && !(w.store.pending.value.id.Some? && w.store.pending.value.id.value in w.ledger)
    then OriginOf(w.origin, w.store.pending) else {}
  }

  lemma {:induction false} PrefixTicksAre(w: World, n: nat)
    requires n <= |w.ledger|
    ensures forall t :: t in PrefixTicks(w, n) <==>
              exists k :: 0 <= k < n && w.ledger[k] in w.origin && t in w.origin[w.ledger[k]]
  {
    if n > 0 {
      PrefixTicksAre(w, n - 1);
    }
  }

  /** The panel's books: each settled batch brings its own ticks and nobody else's. */
  lemma {:induction false} SettledBytesAreTicks(w: World, n: nat, uid: int, d: Direction)
    requires Inv(w, false) && n <= |w.ledger|
    ensures SettledBytes(w, n, uid, d) == Share(w.log, PrefixTicks(w, n), uid, d)
  {
    if n == 0 {
      ShareEmpty(w.log, uid, d);
    } else {
      SettledBytesAreTicks(w, n - 1, uid, d);
      PrefixTicksAre(w, n - 1);
      var id := w.ledger[n - 1];
      assert id in w.issued && id in w.origin;
      assert PrefixTicks(w, n - 1) !! w.origin[id] by {
        forall k | 0 <= k < n - 1 && w.ledger[k] in w.origin ensures w.origin[w.ledger[k]] !! w.origin[id] {
          assert w.ledger[k] != id && w.ledger[k] in Live(w) && id in Live(w);
        }
      }
      ShareUnion(w.log, PrefixTicks(w, n - 1), w.origin[id], uid, d);
    }
  }

  lemma PrefixIsSettled(w: World)
    ensures PrefixTicks(w, |w.ledger|) == SettledTicks(w)
  {
    PrefixTicksAre(w, |w.ledger|);
  }

  lemma {:induction false} ShareBounds(log: seq<TrafficMap>, ticks: set<nat>, uid: int, d: Direction)
    requires forall i :: 0 <= i < |log| ==> NonNegative(log[i])
    ensures 0 <= Share(log, ticks, uid, d) <= CountedBytes(log, uid, d)
    ensures (forall t: nat :: t < |log| ==> t in ticks) ==> Share(log, ticks, uid, d) == CountedBytes(log, uid, d)
  {
    if |log| > 0 {
      ShareBounds(log[..|log| - 1], ticks, uid, d);
    }
  }

  /** Settled, in doubt, and not yet reported are three disjoint groups of ticks. */
  lemma ThreePlaces(w: World)
    requires Inv(w, false)
    ensures SettledTicks(w) !! UnsettledTicks(w) && (SettledTicks(w) + UnsettledTicks(w)) !! w.held
  {
    assert UnsettledTicks(w) != {} ==> w.store.pending.Some? && w.store.pending.value.id.value in Live(w);
    assert forall i :: i in w.ledger ==> i in Live(w);
  }

  lemma Accounts(w: World, uid: int, d: Direction)
    requires Inv(w, false)
    ensures SettledBytes(w, |w.ledger|, uid, d) + UnsettledBytes(w, uid, d) + At(w.store.tracker, uid, d)
            == Share(w.log, SettledTicks(w) + UnsettledTicks(w) + w.held, uid, d)
  {
    ThreePlaces(w);
    SettledBytesAreTicks(w, |w.ledger|, uid, d);
    PrefixIsSettled(w);
    if UnsettledTicks(w) == {} {
      ShareEmpty(w.log, uid, d);
    }
    ShareUnion(w.log, SettledTicks(w), UnsettledTicks(w), uid, d);
    ShareUnion(w.log, SettledTicks(w) + UnsettledTicks(w), w.held, uid, d);
  }

  // ----- safety -----

  /** No tick is in two settled batches. */
  predicate SettledOnce(w: World) {
    forall i, j :: 0 <= i < j < |w.ledger| && w.ledger[i] in w.origin && w.ledger[j] in w.origin ==>
      w.ledger[i] != w.ledger[j] && w.origin[w.ledger[i]] !! w.origin[w.ledger[j]]
  }

  /**
   Failing saves, lost answers, late deliveries, failing clears, the shutdown
   push beside the goroutine, crashes and restarts, in any order: every tick is
   settled at most once, and no more bytes are settled or still due than the
   tracker counted, for every user and direction.
   */
  lemma AtMostOnce(durable: bool, actions: seq<Action>, w: World, uid: int, d: Direction)
    requires Reaches(Init(durable), actions, w) && Careful(Init(durable), actions)
    ensures SettledOnce(w)
    ensures SettledBytes(w, |w.ledger|, uid, d) + UnsettledBytes(w, uid, d) + At(w.store.tracker, uid, d)
            <= CountedBytes(w.log, uid, d)
    ensures 0 <= SettledBytes(w, |w.ledger|, uid, d) && 0 <= UnsettledBytes(w, uid, d) && 0 <= At(w.store.tracker, uid, d)
  {
    InitInv(durable);
    RunInv(Init(durable), false, actions, w);
    InvSettlesOnce(w);
    BytesBounded(w, uid, d);
  }

  lemma InvSettlesOnce(w: World)
    requires Inv(w, false)
    ensures SettledOnce(w)
  {
    assert forall i :: 0 <= i < |w.ledger| ==> w.ledger[i] in Live(w);
  }

  lemma BytesBounded(w: World, uid: int, d: Direction)
    requires Inv(w, false)
    ensures SettledBytes(w, |w.ledger|, uid, d) + UnsettledBytes(w, uid, d) + At(w.store.tracker, uid, d)
            <= CountedBytes(w.log, uid, d)
    ensures 0 <= SettledBytes(w, |w.ledger|, uid, d) && 0 <= UnsettledBytes(w, uid, d) && 0 <= At(w.store.tracker, uid, d)
  {
    Accounts(w, uid, d);
    SettledBytesAreTicks(w, |w.ledger|, uid, d);
    ShareBounds(w.log, SettledTicks(w) + UnsettledTicks(w) + w.held, uid, d);
    ShareBounds(w.log, PrefixTicks(w, |w.ledger|), uid, d);
    ShareBounds(w.log, OriginOf(w.origin, w.store.pending), uid, d);
    ShareBounds(w.log, w.held, uid, d);
  }

  // ----- conservation -----

  /** As long as nothing is gone, every counted byte is settled, in doubt or still in the tracker. */
  lemma NothingDroppedIsExact(durable: bool, actions: seq<Action>, w: World, uid: int, d: Direction)
    requires Reaches(Init(durable), actions, w) && Careful(Init(durable), actions)
    requires forall t :: !Gone(w, t)
    ensures SettledBytes(w, |w.ledger|, uid, d) + UnsettledBytes(w, uid, d) + At(w.store.tracker, uid, d)
            == CountedBytes(w.log, uid, d)
  {
    InitInv(durable);
    RunInv(Init(durable), false, actions, w);
    NothingGoneIsExact(w, uid, d);
  }

  lemma NothingGoneIsExact(w: World, uid: int, d: Direction)
    requires Inv(w, false)
    requires forall t :: !Gone(w, t)
    ensures SettledBytes(w, |w.ledger|, uid, d) + UnsettledBytes(w, uid, d) + At(w.store.tracker, uid, d)
            == CountedBytes(w.log, uid, d)
  {
    Accounts(w, uid, d);
    assert OriginOf(w.origin, w.store.pending) <= SettledTicks(w) + UnsettledTicks(w) by {
      if w.store.pending.Some? && Settled(w, w.store.pending.value) {
        SettledAreSettled(w, w.store.pending.value);
      }
    }
    forall t: nat | t < |w.log|
      ensures t in SettledTicks(w) + UnsettledTicks(w) + w.held
    {
      assert !Gone(w, t);
    }
    ShareBounds(w.log, SettledTicks(w) + UnsettledTicks(w) + w.held, uid, d);
  }

  lemma SettledAreSettled(w: World, b: Batch)
    requires Settled(w, b)
    ensures OriginOf(w.origin, Some(b)) <= SettledTicks(w)
  {
  }

  lemma WeakerInv(w: World)
    requires Inv(w, true)
    ensures Inv(w, false)
  {
  }

  predicate Restarts(a: Action) {
    a.Crash? || EndsService(a)
  }

  /** The shutdown push flushed the tracker, could not spool the batch, and gave up. */
  predicate DropsAtShutdown(w: World, a: Action) {
    a.NextSync? && w.store.durable && Flushes(w.store) && !a.save.Saved?
  }

  // ----- what a step may lose -----

  /** The parts that decide what is gone, before and after. */
  lemma SameIsKept(w: World, w': World, t: nat)
    requires Gone(w', t) && |w'.log| == |w.log|
    requires w.held <= w'.held && w'.origin == w.origin && w.ledger <= w'.ledger
    requires w'.store.pending == w.store.pending || (w.store.pending.Some? && Settled(w, w.store.pending.value))
    ensures Gone(w, t)
  {
    forall i | i in w.ledger
      ensures i in w'.ledger
    {
      var k :| 0 <= k < |w.ledger| && w.ledger[k] == i;
      assert w'.ledger[k] == i;
    }
    assert SettledTicks(w) <= SettledTicks(w');
    if w'.store.pending != w.store.pending {
      SettledAreSettled(w, w.store.pending.value);
    }
  }

  lemma IssueKeeps(w: World, id: BatchId, save: SaveOutcome, t: nat)
    requires Accounted(w) && id !in w.issued && t < |w.log|
    ensures var p := NextBatchSpec(w.store, id, save);
            var i := Issue(w, id).(store := p.store);
            && (p.ok && Gone(i, t) ==> Gone(w, t))
            && (!p.ok && Gone(i.(held := w.held), t) ==> Gone(w, t))
  {
    var p := NextBatchSpec(w.store, id, save);
    var i := Issue(w, id).(store := p.store);
    if t in SettledTicks(w) {
      var k :| k in w.ledger && k in w.origin && t in w.origin[k];
      assert k in i.origin && i.origin[k] == w.origin[k];
      assert t in SettledTicks(i) && t in SettledTicks(i.(held := w.held));
    }
  }

  lemma AcknowledgeKeeps(w: World, th: Thread, clear: ClearOutcome, t: nat)
    requires Inv(w, false) && InPhase(w, th, Accepted)
    requires Gone(AcknowledgeStep(w, th, clear), t)
    ensures Gone(w, t)
  {
    var w' := AcknowledgeStep(w, th, clear);
    assert FlightKnown(FlightOf(w, th).value, w.issued, w.sent, w.ledger);
    if w'.store.pending != w.store.pending {
      assert !th.Orphan? && w.store.pending.value.id == BatchOf(w, th).id;
    }
    SameIsKept(w, w', t);
  }

  lemma TickKeeps(w: World, delta: TrafficMap, t: nat)
    requires Gone(TickStep(w, delta), t)
    ensures Gone(w, t)
  {
    assert t != |w.log|;
    SameIsKept(w, TickStep(w, delta).(log := w.log), t);
  }

  lemma AnswerKeeps(w: World, th: Thread, ok: bool, t: nat)
    requires Flights(w) && FlightOf(w, th).Some? && Gone(AnswerStep(w, th, ok), t)
    ensures Gone(w, t)
  {
    assert FlightKnown(FlightOf(w, th).value, w.issued, w.sent, w.ledger);
    SameIsKept(w, AnswerStep(w, th, ok), t);
  }

  lemma CommitKeeps(w: World, id: BatchId, t: nat)
    requires Gone(w.(ledger := w.ledger + [id]), t)
    ensures Gone(w, t)
  {
    SameIsKept(w, w.(ledger := w.ledger + [id]), t);
  }

  lemma HandKeeps(w: World, th: Thread, t: nat)
    requires FlightOf(w, th).Some? && Gone(HandStep(w, th), t)
    ensures Gone(w, t)
  {
    SameIsKept(w, HandStep(w, th), t);
  }

  lemma IssuingKeeps(w: World, a: Action, t: nat)
    requires Accounted(w) && Enabled(w, a) && (a.StartAsync? || a.NextSync?) && Gone(Step(w, a), t)
    ensures Gone(w, t) || DropsAtShutdown(w, a)
  {
    IssueKeeps(w, a.id, a.save, t);
  }

  /** Only the end of a service, and a failed save in the shutdown push, ever drop ticks. */
  lemma OnlyTheseDrop(w: World, a: Action, t: nat)
    requires Inv(w, false) && Enabled(w, a) && Gone(Step(w, a), t)
    ensures Gone(w, t) || Restarts(a) || DropsAtShutdown(w, a)
  {
    match a
    case Tick(delta) => TickKeeps(w, delta, t);
    case StartAsync(_, _) => IssuingKeeps(w, a, t);
    case NextSync(_, _) => IssuingKeeps(w, a, t);
    case Acknowledge(th, clear) => AcknowledgeKeeps(w, th, clear, t);
    case Commit(id) => CommitKeeps(w, id, t);
    case Hand(th) => HandKeeps(w, th, t);
    case Answer(th, ok) => AnswerKeeps(w, th, ok, t);
    case _ =>
  }

  predicate Orderly(from: World, actions: seq<Action>)
    decreases |actions|
  {
    actions != [] && Enabled(from, actions[0]) ==>
      && !Restarts(actions[0]) && !DropsAtShutdown(from, actions[0])
      && Orderly(Step(from, actions[0]), actions[1..])
  }

  lemma {:induction false} OrderlyDropsNothing(w: World, actions: seq<Action>, w': World)
    requires Reaches(w, actions, w') && Orderly(w, actions) && Inv(w, false)
    requires forall t :: !Gone(w, t)
    ensures Inv(w', false) && forall t :: !Gone(w', t)
    decreases |actions|
  {
    if actions != [] {
      var next := Step(w, actions[0]);
      StepInv(w, false, actions[0]);
      forall t
        ensures !Gone(next, t)
      {
        if Gone(next, t) {
          OnlyTheseDrop(w, actions[0], t);
          assert false;
        }
      }
      OrderlyDropsNothing(next, actions[1..], w');
    }
  }

  /** Without restarts and without a failed save in the shutdown push no byte is ever lost. */
  lemma OrderlyRunsConserve(durable: bool, actions: seq<Action>, w: World, uid: int, d: Direction)
    requires Reaches(Init(durable), actions, w) && Orderly(Init(durable), actions)
    ensures SettledBytes(w, |w.ledger|, uid, d) + UnsettledBytes(w, uid, d) + At(w.store.tracker, uid, d)
            == CountedBytes(w.log, uid, d)
  {
    InitInv(durable);
    WeakerInv(Init(durable));
    OrderlyDropsNothing(Init(durable), actions, w);
    NothingGoneIsExact(w, uid, d);
  }

  // ----- stable replay -----

  /** Two reports with one ID carry the same traffic, even across restarts. */
  lemma StableReplay(w1: World, th1: Thread, actions: seq<Action>, w2: World, th2: Thread)
    requires Inv(w1, false) && Reaches(w1, actions, w2) && Careful(w1, actions)
    requires InPhase(w1, th1, Ready) && InPhase(w2, th2, Ready)
    requires BatchOf(w1, th1).id.Some? && BatchOf(w1, th1).id == BatchOf(w2, th2).id
    ensures BatchOf(w1, th1) == BatchOf(w2, th2)
  {
    RunInv(w1, false, actions, w2);
    IssuedStays(w1, actions, w2);
    assert FlightKnown(FlightOf(w1, th1).value, w1.issued, w1.sent, w1.ledger);
    assert FlightKnown(FlightOf(w2, th2).value, w2.issued, w2.sent, w2.ledger);
  }

  lemma IssuedStep(w: World, a: Action)
    requires Enabled(w, a)
    ensures forall i :: i in w.issued ==> i in Step(w, a).issued && Step(w, a).issued[i] == w.issued[i]
  {
  }

  lemma LedgerStep(w: World, a: Action)
    requires Enabled(w, a)
    ensures w.ledger <= Step(w, a).ledger
  {
  }

  lemma DurableStep(w: World, a: Action)
    requires Enabled(w, a)
    ensures Step(w, a).store.durable == w.store.durable
  {
  }

  lemma {:induction false} IssuedStays(w: World, actions: seq<Action>, w': World)
    requires Reaches(w, actions, w')
    ensures forall i :: i in w.issued ==> i in w'.issued && w'.issued[i] == w.issued[i]
    ensures w.ledger <= w'.ledger
    ensures w'.store.durable == w.store.durable
    decreases |actions|
  {
    if actions != [] {
      IssuedStep(w, actions[0]);
      LedgerStep(w, actions[0]);
      DurableStep(w, actions[0]);
      IssuedStays(Step(w, actions[0]), actions[1..], w');
    }
  }
}
