/** What restarts cost: after crashes of the machine, kills of the process, and new services in the same process. */
module SettlementRestarts {
  import opened Wrappers
  import opened Traffic
  import opened Spool
  import opened Reporting
  import opened Settlement
  import opened SettlementProof
  import opened SettlementResults

  // ----- the spool and the batch in doubt -----

  /** What is about to be handed to the sink is durably in the slot, or settled already. */
  ghost predicate HandedDurably(w: World) {
    forall th :: InPhase(w, th, Ready) && BatchOf(w, th).id.Some? ==> Spooled(w, BatchOf(w, th)) || Settled(w, BatchOf(w, th))
  }

  /** Any restart that is possible now costs at most what the tracker has not handed over. */
  ghost predicate CostsOnlyTheTracker(w: World) {
    forall a, t :: Restarts(a) && Enabled(w, a) && Gone(Step(w, a), t) ==> Gone(w, t) || t in w.held
  }

  lemma CoupledHandsDurably(w: World)
    requires Inv(w, true) && w.store.durable
    ensures HandedDurably(w)
  {
    forall th | InPhase(w, th, Ready) && BatchOf(w, th).id.Some?
      ensures Spooled(w, BatchOf(w, th)) || Settled(w, BatchOf(w, th))
    {
      assert Covers(w.store.pending, w.ledger, BatchOf(w, th));
    }
  }

  lemma CoupledCosts(w: World)
    requires Inv(w, true) && w.store.durable
    ensures CostsOnlyTheTracker(w)
  {
    forall a, t | Restarts(a) && Enabled(w, a) && Gone(Step(w, a), t)
      ensures Gone(w, t) || t in w.held
    {
      RestartCosts(w, a, t);
    }
  }

  lemma RestartCosts(w: World, a: Action, t: nat)
    requires Inv(w, true) && w.store.durable && Restarts(a) && Enabled(w, a) && Gone(Step(w, a), t)
    ensures Gone(w, t) || t in w.held
  {
    var w' := Step(w, a);
    assert SettledTicks(w') == SettledTicks(w);
    if InDoubt(w) {
      assert w.store.disk.afterCrash == {w.store.pending};
      assert w'.store.pending == w.store.pending;
    } else if w.store.pending.Some? {
      SettledAreSettled(w, w.store.pending.value);
    }
  }

  /**
   Over every gentle run: a batch that is handed to the sink is durably in the
   slot or settled, and nothing handed over is forgotten before it is settled.
   Whatever else a restart might bring back is settled, or was never handed over
   and shares no tick with anything that was. Every possible slot loads.
   */
  lemma SpoolCoupling(actions: seq<Action>, w: World)
    requires Reaches(Init(true), actions, w) && GentleRun(Init(true), actions)
    ensures HandedDurably(w)
    ensures forall i :: i in w.sent && i !in w.ledger ==>
              i in w.issued && w.store.pending == Some(w.issued[i]) && Spooled(w, w.issued[i])
    ensures forall b, i :: Some(b) in w.store.disk.afterCrash && Some(b) != w.store.pending && i in w.sent ==>
              && i in w.issued
              && (b == w.issued[i] ==> Settled(w, b))
              && (b != w.issued[i] ==> OriginOf(w.origin, Some(b)) !! OriginOf(w.origin, Some(w.issued[i])))
    ensures forall left :: left in w.store.disk.afterCrash ==> ValidSlot(left)
  {
    GentleInv(actions, w);
    CoupledHandsDurably(w);
    forall b, i | Some(b) in w.store.disk.afterCrash && Some(b) != w.store.pending && i in w.sent
      ensures i in w.issued && (b == w.issued[i] ==> Settled(w, b))
      ensures b != w.issued[i] ==> OriginOf(w.origin, Some(b)) !! OriginOf(w.origin, Some(w.issued[i]))
    {
      LeftoverAndSent(w, b, i);
    }
    forall left | left in w.store.disk.afterCrash
      ensures ValidSlot(left)
    {
      assert left.Some? ==> Known(w.issued, left.value);
    }
  }

  lemma LeftoverAndSent(w: World, b: Batch, i: BatchId)
    requires Inv(w, true) && w.store.durable
    requires Some(b) in w.store.disk.afterCrash && Some(b) != w.store.pending && i in w.sent
    ensures i in w.issued && (b == w.issued[i] ==> Settled(w, b))
    ensures b != w.issued[i] ==> OriginOf(w.origin, Some(b)) !! OriginOf(w.origin, Some(w.issued[i]))
  {
    assert Known(w.issued, b) && i in Live(w);
  }

  lemma GentleInv(actions: seq<Action>, w: World)
    requires Reaches(Init(true), actions, w) && GentleRun(Init(true), actions)
    ensures Inv(w, true) && w.store.durable
  {
    InitInv(true);
    RunInv(Init(true), true, actions, w);
    IssuedStays(Init(true), actions, w);
  }

  /** With a spool, a restart costs at most what the tracker had not yet handed over, after any gentle run. */
  lemma CrashCostsOnlyTheTracker(actions: seq<Action>, w: World, a: Action, t: nat)
    requires Reaches(Init(true), actions, w) && GentleRun(Init(true), actions)
    requires Restarts(a) && Enabled(w, a) && Gone(Step(w, a), t)
    ensures Gone(w, t) || t in w.held
  {
    GentleInv(actions, w);
    RestartCosts(w, a, t);
  }

  /**
   No step takes away a batch that the panel has not settled, neither from memory
   nor from the spool, whatever ends; only an orphan's late clear can.
   */
  lemma UnsettledStays(w: World, a: Action)
    requires Inv(w, true) && Enabled(w, a) && !OrphanClears(w, a)
    requires w.store.durable && InDoubt(w)
    ensures Step(w, a).store.pending == w.store.pending
    ensures Step(w, a).store.disk == w.store.disk && w.store.disk.afterCrash == {w.store.pending}
  {
    InDoubtIsTrusted(w);
    match a
    case Acknowledge(th, clear) => AcknowledgedInDoubt(w, th, clear);
    case Answer(th, ok) => AnsweredInDoubt(w, th, ok);
    case Crash(left) => assert w.store.disk == Disk(left, {left});
    case StartAsync(id, save) => StartedInDoubt(w, id, save);
    case NextSync(id, save) => StartedInDoubt(w, id, save);
    case _ =>
  }

  lemma StartedInDoubt(w: World, id: BatchId, save: SaveOutcome)
    requires w.store.pending.Some?
    ensures StartAsyncStep(w, id, save).store == w.store
    ensures w.main.Next? ==> NextSyncStep(w, id, save).store == w.store
  {
  }

  lemma AcknowledgedInDoubt(w: World, th: Thread, clear: ClearOutcome)
    requires Placed(w) && InPhase(w, th, Accepted) && !OrphanClears(w, Acknowledge(th, clear)) && InDoubt(w)
    ensures AcknowledgeStep(w, th, clear).store == w.store
  {
    assert FlightKnown(FlightOf(w, th).value, w.issued, w.sent, w.ledger);
  }

  lemma AnsweredInDoubt(w: World, th: Thread, ok: bool)
    requires Placed(w) && InPhase(w, th, Waiting)
    ensures AnswerStep(w, th, ok).store == w.store
  {
    assert FlightKnown(FlightOf(w, th).value, w.issued, w.sent, w.ledger);
  }

  lemma InDoubtIsTrusted(w: World)
    requires Inv(w, true) && w.store.durable && InDoubt(w)
    ensures Trusted(w.store.disk) && w.store.disk.slot == w.store.pending
    ensures w.store.disk.afterCrash == {w.store.pending}
  {
  }

  /** No orphan clears the slot while the serving controller has a batch in doubt. */
  ghost predicate NoClearInDoubt(from: World, actions: seq<Action>)
    decreases |actions|
  {
    actions != [] && Enabled(from, actions[0]) ==>
      !(OrphanClears(from, actions[0]) && InDoubt(from)) && NoClearInDoubt(Step(from, actions[0]), actions[1..])
  }

  /** So over any run, any restarts included, a spooled batch stays as it is until the panel has settled it. */
  lemma {:induction false} PendingUntilSettled(w: World, actions: seq<Action>, w': World)
    requires Inv(w, true) && Reaches(w, actions, w') && NoClearInDoubt(w, actions)
    requires w.store.durable && w.store.pending.Some?
    ensures Settled(w', w.store.pending.value)
            || (w'.store.pending == w.store.pending && w'.store.disk.afterCrash == {w.store.pending})
    decreases |actions|
  {
    if Settled(w, w.store.pending.value) {
      IssuedStays(w, actions, w');
    } else {
      InDoubtIsTrusted(w);
      if actions != [] {
        StepInv(w, true, actions[0]);
        UnsettledStays(w, actions[0]);
        DurableStep(w, actions[0]);
        PendingUntilSettled(Step(w, actions[0]), actions[1..], w');
      }
    }
  }

  /** The goroutine's acknowledgement of X after the shutdown push of the same controller installed Y. */
  lemma LateAcknowledgement(durable: bool, actions: seq<Action>, w: World, clear: ClearOutcome, y: Batch)
    requires Reaches(Init(durable), actions, w) && Careful(Init(durable), actions)
    requires InPhase(w, Async, Accepted)
    requires w.store.pending == Some(y) && BatchOf(w, Async) != y
    ensures Step(w, Acknowledge(Async, clear)).store == w.store
  {
    ReachablePlaces(durable, actions, w);
    assert AcknowledgeStep(w, Async, clear).store == AcknowledgeSpec(w.store, BatchOf(w, Async), clear).store;
  }

  lemma ReachablePlaces(durable: bool, actions: seq<Action>, w: World)
    requires Reaches(Init(durable), actions, w) && Careful(Init(durable), actions)
    ensures w.async.Some? ==> FlightKnown(w.async.value, w.issued, w.sent, w.ledger)
    ensures w.store.pending.Some? ==> Known(w.issued, w.store.pending.value)
  {
    InitInv(durable);
    RunInv(Init(durable), false, actions, w);
    assert w.async.Some? ==> FlightOf(w, Async) == w.async;
  }

  // ----- runs -----

  lemma {:induction false} ReachesJoin(a: World, xs: seq<Action>, b: World, ys: seq<Action>, c: World)
    requires Reaches(a, xs, b) && Reaches(b, ys, c)
    ensures Reaches(a, xs + ys, c)
    ensures Careful(a, xs) && Careful(b, ys) ==> Careful(a, xs + ys)
    ensures GentleRun(a, xs) && GentleRun(b, ys) ==> GentleRun(a, xs + ys)
    decreases |xs|
  {
    if xs == [] {
      assert xs + ys == ys;
    } else {
      assert (xs + ys)[1..] == xs[1..] + ys;
      ReachesJoin(Step(a, xs[0]), xs[1..], b, ys, c);
    }
  }

  lemma OneStep(w: World, a: Action)
    requires Enabled(w, a)
    ensures Reaches(w, [a], Step(w, a))
    ensures (EndsService(a) ==> KillSafe(w)) ==> Careful(w, [a])
    ensures Gentle(w, a) ==> GentleRun(w, [a])
  {
    assert [a][1..] == [];
    assert Reaches(Step(w, a), [], Step(w, a));
    assert Careful(Step(w, a), []) && GentleRun(Step(w, a), []);
  }

  lemma {:induction false} NoKillIsCareful(w: World, actions: seq<Action>)
    requires NoKill(actions)
    ensures Careful(w, actions)
    decreases |actions|
  {
    if actions != [] && Enabled(w, actions[0]) {
      NoKillIsCareful(Step(w, actions[0]), actions[1..]);
    }
  }

  lemma {:induction false} FreshId(used: set<BatchId>) returns (id: BatchId)
    ensures id !in used && forall i :: i in used ==> i < id
    decreases |used|
  {
    if used == {} {
      id := 0;
    } else {
      var u := SomeMember(used);
      var above := FreshId(used - {u});
      assert forall i :: i in used ==> i == u || i in used - {u};
      id := if u < above then above else u + 1;
    }
  }

  // ----- when the slot can be trusted -----

  /**
   Read off the file operations: a save that moved the record into place, did not
   get the directory synced and did not remove it again is the only one to end the
   trust, be it that sync and clean-up both failed or that the process was killed in
   between; a save or clear that works, and any removal, restores it.
   */
  lemma TrustAfterSave(d: Disk, b: Batch, save: SaveOutcome)
    requires d.slot in d.afterCrash && Some(b) !in d.afterCrash
    ensures Trusted(SaveSpec(d, b, save)) <==>
            save == Saved || save == NotSynced(true) || (save != NotSynced(false) && Trusted(d))
  {
    if save == NotSynced(false) {
      assert d.slot in SaveSpec(d, b, save).afterCrash && d.slot != Some(b);
    }
  }

  lemma TrustAfterClear(d: Disk, clear: ClearOutcome)
    ensures Trusted(ClearSpec(d, clear)) <==> clear != NotRemoved || Trusted(d)
  {
  }

  predicate SavesAreClean(actions: seq<Action>) {
    forall i :: 0 <= i < |actions| ==>
      (actions[i].StartAsync? || actions[i].NextSync?) ==> actions[i].save != NotSynced(false)
  }

  lemma TrustStays(w: World, a: Action)
    requires Placed(w) && Enabled(w, a) && Trusted(w.store.disk) && SavesAreClean([a])
    ensures Trusted(Step(w, a).store.disk)
  {
    assert a == [a][0];
  }

  /** Unless a save stops between its rename and its directory sync or clean-up, services may be killed and replaced at any time. */
  lemma {:induction false} CleanSavesAreGentle(w: World, actions: seq<Action>)
    requires Inv(w, true) && Trusted(w.store.disk) && SavesAreClean(actions) && NoClearInDoubt(w, actions)
    ensures GentleRun(w, actions)
    decreases |actions|
  {
    if actions != [] && Enabled(w, actions[0]) {
      assert SavesAreClean([actions[0]]);
      assert forall i :: 0 <= i < |actions[1..]| ==> actions[1..][i] == actions[i + 1];
      TrustStays(w, actions[0]);
      StepInv(w, true, actions[0]);
      CleanSavesAreGentle(Step(w, actions[0]), actions[1..]);
    }
  }

  /** Whatever runs gently after the process was killed here is handed over durably, and costs no more than it should. */
  ghost predicate KillKeepsCoupling(w: World) {
    forall actions, w' :: Reaches(KillStep(w), actions, w') && GentleRun(KillStep(w), actions) ==>
      HandedDurably(w') && CostsOnlyTheTracker(w')
  }

  /** A kill keeps the coupling exactly while the slot can be trusted. */
  lemma KillKeepsCouplingIff(w: World)
    requires Inv(w, true) && w.store.durable
    ensures KillKeepsCoupling(w) <==> Trusted(w.store.disk)
    ensures Coupled(KillStep(w)) <==> Trusted(w.store.disk)
  {
    if Trusted(w.store.disk) {
      TrustedIsSafe(w);
      KillInv(w, true);
      forall actions, w' | Reaches(KillStep(w), actions, w') && GentleRun(KillStep(w), actions)
        ensures HandedDurably(w') && CostsOnlyTheTracker(w')
      {
        RunInv(KillStep(w), true, actions, w');
        IssuedStays(KillStep(w), actions, w');
        CoupledHandsDurably(w');
        CoupledCosts(w');
      }
    } else {
      var a, w' := UntrustedHands(w, KillStep(w));
      assert !HandedDurably(w');
    }
  }

  /** Whatever runs gently after the service was replaced here is as it should be. */
  ghost predicate SuccessionKeepsCoupling(w: World, key: nat) {
    forall actions, w' :: Reaches(SucceedStep(w, key), actions, w') && GentleRun(SucceedStep(w, key), actions) ==>
      HandedDurably(w') && CostsOnlyTheTracker(w')
  }

  /** The same holds for a new service in the same process. */
  lemma SuccessionKeepsCouplingIff(w: World, key: nat)
    requires Inv(w, true) && w.store.durable && Enabled(w, Succeed(key))
    ensures SuccessionKeepsCoupling(w, key) <==> Trusted(w.store.disk)
    ensures Coupled(SucceedStep(w, key)) <==> Trusted(w.store.disk)
  {
    var k := SucceedStep(w, key);
    if Trusted(w.store.disk) {
      TrustedIsSafe(w);
      SucceedInv(w, true, key);
      forall actions, w' | Reaches(k, actions, w') && GentleRun(k, actions)
        ensures HandedDurably(w') && CostsOnlyTheTracker(w')
      {
        RunInv(k, true, actions, w');
        IssuedStays(k, actions, w');
        CoupledHandsDurably(w');
        CoupledCosts(w');
      }
    } else {
      var a, w' := UntrustedHands(w, k);
      assert !HandedDurably(w');
    }
  }

  /** With an untrusted slot the new service's next report takes its record out to the sink, though a crash may still undo it. */
  lemma UntrustedHands(w: World, k: World) returns (a: Action, w': World)
    requires Inv(w, true) && w.store.durable && !Trusted(w.store.disk)
    requires k == KillStep(w).(orphans := k.orphans)
    ensures Reaches(k, [a], w') && GentleRun(k, [a])
    ensures !HandedDurably(w') && !Coupled(k)
  {
    var v := w.store.disk.slot.value;
    assert Known(w.issued, v) && !Settled(w, v);
    var id := FreshId(w.issued.Keys);
    a := StartAsync(id, Saved);
    w' := Step(k, a);
    OneStep(k, a);
    assert GentleRun(Step(k, a), [a][1..]);
    assert w' == k.(async := Some(Flight(v, Ready)));
    assert InPhase(w', Async, Ready) && BatchOf(w', Async) == v;
  }

  // ----- what an untrusted slot costs -----

  const SOME_TRAFFIC: TrafficMap := map[1 := Bytes(10, 20)]

  /** The shape of a service that has counted one tick and whose saves keep failing half-way. */
  predicate Stuck(w: World, delta: TrafficMap) {
    && w.main.Serving? && w.async.None? && w.held == {0} && |w.log| == 1 && w.ledger == [] && w.sent == {}
    && w.store.durable && w.store.pending.None? && w.store.tracker == delta && delta != map[]
  }

  /** A save whose directory sync and clean-up both fail: the record stays, its bytes return to the tracker. */
  lemma HalfSaved(w: World, delta: TrafficMap, id: BatchId) returns (w': World)
    requires Stuck(w, delta) && id !in w.issued
    ensures Enabled(w, StartAsync(id, NotSynced(false))) && w' == Step(w, StartAsync(id, NotSynced(false)))
    ensures Stuck(w', delta)
    ensures w'.issued == w.issued[id := Batch(Some(id), delta)] && w'.origin == w.origin[id := {0}]
    ensures w'.store.disk.slot == Some(Batch(Some(id), delta))
    ensures w'.store.disk.afterCrash == w.store.disk.afterCrash + {Some(Batch(Some(id), delta))}
  {
    w' := Step(w, StartAsync(id, NotSynced(false)));
    PlusEmpty(delta);
  }

  lemma FirstTick(delta: TrafficMap)
    requires NonNegative(delta) && delta != map[]
    ensures var w := Init(true); Enabled(w, Tick(delta)) && Stuck(TickStep(w, delta), delta)
    ensures TickStep(Init(true), delta).issued == map[] && TickStep(Init(true), delta).store.disk == EMPTY_DISK
  {
    PlusEmpty(delta);
  }

  lemma OneHalfSaved() returns (actions: seq<Action>, w: World, b: Batch)
    ensures Reaches(Init(true), actions, w) && NoKill(actions) && Stuck(w, b.traffic)
    ensures b == Batch(Some(1), SOME_TRAFFIC) && w.issued == map[1 := b] && w.origin == map[1 := {0}]
    ensures w.store.disk == Disk(Some(b), {None, Some(b)})
  {
    var delta := SOME_TRAFFIC;
    assert 1 in delta;
    FirstTick(delta);
    var w1 := TickStep(Init(true), delta);
    OneStep(Init(true), Tick(delta));
    w := HalfSaved(w1, delta, 1);
    OneStep(w1, StartAsync(1, NotSynced(false)));
    ReachesJoin(Init(true), [Tick(delta)], w1, [StartAsync(1, NotSynced(false))], w);
    actions, b := [Tick(delta)] + [StartAsync(1, NotSynced(false))], Batch(Some(1), delta);
  }

  lemma KilledThere(w: World, b: Batch) returns (k: World)
    requires Stuck(w, b.traffic) && w.store.disk == Disk(Some(b), {None, Some(b)})
    ensures k == KillStep(w) && Reaches(w, [Kill], k) && Careful(w, [Kill])
    ensures k == w.(store := w.store.(tracker := map[], pending := Some(b)), orphans := map[], held := {})
  {
    k := KillStep(w);
    assert KillSafe(w);
    OneStep(w, Kill);
  }

  /** The loader trusts what it finds: after a half-failed save and a kill, a record goes out that a crash may undo. */
  lemma KilledServiceHandsUnspooled() returns (actions: seq<Action>, w: World)
    ensures Reaches(Init(true), actions, w) && Careful(Init(true), actions) && !HandedDurably(w)
  {
    var before, w0, b := OneHalfSaved();
    var k := KilledThere(w0, b);
    NoKillIsCareful(Init(true), before);
    ReachesJoin(Init(true), before, w0, [Kill], k);
    var a := StartAsync(2, Saved);
    w := Step(k, a);
    OneStep(k, a);
    ReachesJoin(Init(true), before + [Kill], k, [a], w);
    actions := before + [Kill] + [a];
    assert InPhase(w, Async, Ready) && BatchOf(w, Async) == b;
  }

  /** And a crash of the machine then costs ticks that the tracker had handed over. */
  lemma KilledServiceLoses() returns (actions: seq<Action>, w: World)
    ensures Reaches(Init(true), actions, w) && Careful(Init(true), actions)
    ensures Enabled(w, Crash(None)) && Gone(Step(w, Crash(None)), 0) && !Gone(w, 0) && 0 !in w.held
  {
    var before, w0, b := OneHalfSaved();
    w := KilledThere(w0, b);
    NoKillIsCareful(Init(true), before);
    ReachesJoin(Init(true), before, w0, [Kill], w);
    actions := before + [Kill];
    assert 0 in OriginOf(w.origin, w.store.pending);
  }

  // ----- what a kill may settle twice -----

  lemma CommonTick(a: set<nat>, b: set<nat>) returns (t: nat)
    requires !(a !! b)
    ensures t in a && t in b
  {
    if x :| x in a && x in b {
      t := x;
    } else {
      assert false;
    }
  }

  /** An idle service can always deliver its pending batch and get it settled. */
  lemma SettlePending(w: World, p: Batch) returns (actions: seq<Action>, w': World)
    requires Known(w.issued, p)
    requires w.main.Serving? && w.async.None? && w.store.pending == Some(p)
    ensures Reaches(w, actions, w') && NoKill(actions)
    ensures p.id.value in w'.ledger && w.ledger <= w'.ledger
    ensures w' == w.(async := w'.async, sent := w'.sent, ledger := w'.ledger)
  {
    var f := FreshId(w.issued.Keys);
    var w1 := Step(w, StartAsync(f, Saved));
    assert w1 == w.(async := Some(Flight(p, Ready)));
    OneStep(w, StartAsync(f, Saved));
    var w2 := Step(w1, Hand(Async));
    OneStep(w1, Hand(Async));
    ReachesJoin(w, [StartAsync(f, Saved)], w1, [Hand(Async)], w2);
    actions, w' := [StartAsync(f, Saved)] + [Hand(Async)], w2;
    if p.id.value !in w2.ledger {
      w' := Step(w2, Commit(p.id.value));
      OneStep(w2, Commit(p.id.value));
      ReachesJoin(w, actions, w2, [Commit(p.id.value)], w');
      actions := actions + [Commit(p.id.value)];
      assert w'.ledger[|w2.ledger|] == p.id.value;
    }
  }

  /** Whatever happens carefully after the process was killed here, no tick is settled twice. */
  ghost predicate Harmless(w: World) {
    forall actions, w' :: Reaches(KillStep(w), actions, w') && Careful(KillStep(w), actions) ==> SettledOnce(w')
  }

  lemma SharedTickSettlesTwice(w: World, i: BatchId, j: BatchId, t: nat)
    requires i in w.ledger && j in w.ledger && i != j && i in w.origin && j in w.origin
    requires t in w.origin[i] && t in w.origin[j]
    ensures !SettledOnce(w)
  {
    var m :| 0 <= m < |w.ledger| && w.ledger[m] == i;
    var n :| 0 <= n < |w.ledger| && w.ledger[n] == j;
    var lo, hi := if m < n then m else n, if m < n then n else m;
    assert 0 <= lo < hi < |w.ledger| && !(w.origin[w.ledger[lo]] !! w.origin[w.ledger[hi]]);
  }

  /** Two different contents of the slot with a common tick: kill, settle one, crash back to the other, settle it. */
  lemma SettleBoth(w: World, v: Batch, b: Batch, t: nat) returns (actions: seq<Action>, w': World)
    requires Known(w.issued, v) && Known(w.issued, b) && v != b
    requires w.store.disk.slot == Some(v) && Some(b) in w.store.disk.afterCrash
    requires t in OriginOf(w.origin, Some(v)) && t in OriginOf(w.origin, Some(b))
    ensures Reaches(KillStep(w), actions, w') && NoKill(actions) && !SettledOnce(w')
  {
    var k := KillStep(w);
    var first, one := SettlePending(k, v);
    var back := CrashTo(one, b);
    var second, two := SettlePending(back, b);
    Join3(k, first, one, Crash(Some(b)), back, second, two);
    actions, w' := first + [Crash(Some(b))] + second, two;
    assert v.id.value in one.ledger;
    SharedTickSettlesTwice(w', v.id.value, b.id.value, t);
  }

  lemma Join3(a: World, xs: seq<Action>, b: World, x: Action, c: World, ys: seq<Action>, d: World)
    requires Reaches(a, xs, b) && Reaches(b, [x], c) && Reaches(c, ys, d)
    requires NoKill(xs) && NoKill(ys) && !EndsService(x)
    ensures Reaches(a, xs + [x] + ys, d) && NoKill(xs + [x] + ys)
  {
    ReachesJoin(a, xs, b, [x], c);
    ReachesJoin(a, xs + [x], c, ys, d);
  }

  lemma CrashTo(w: World, b: Batch) returns (back: World)
    requires Some(b) in w.store.disk.afterCrash
    ensures back == CrashStep(w, Some(b)) && Reaches(w, [Crash(Some(b))], back)
  {
    back := CrashStep(w, Some(b));
    OneStep(w, Crash(Some(b)));
  }

  lemma UnsafeKillSettlesTwice(w: World) returns (actions: seq<Action>, w': World)
    requires Inv(w, false) && !KillSafe(w)
    ensures Reaches(KillStep(w), actions, w') && NoKill(actions) && !SettledOnce(w')
  {
    var b :| Some(b) in w.store.disk.afterCrash && w.store.disk.slot.Some? && w.store.disk.slot != Some(b)
             && !(OriginOf(w.origin, Some(b)) !! OriginOf(w.origin, w.store.disk.slot));
    var v := w.store.disk.slot.value;
    var t := CommonTick(OriginOf(w.origin, Some(b)), OriginOf(w.origin, Some(v)));
    assert Known(w.issued, b) && Known(w.issued, v);
    actions, w' := SettleBoth(w, v, b, t);
  }

  /** Killing the process is harmless exactly where the disk can fall back to nothing that overlaps the slot. */
  lemma KillHarmlessIff(w: World)
    requires Inv(w, false)
    ensures Harmless(w) <==> KillSafe(w)
  {
    if KillSafe(w) {
      forall actions, w' | Reaches(KillStep(w), actions, w') && Careful(KillStep(w), actions)
        ensures SettledOnce(w')
      {
        KillInv(w, false);
        RunInv(KillStep(w), false, actions, w');
        InvSettlesOnce(w');
      }
    } else {
      var actions, w' := UnsafeKillSettlesTwice(w);
      NoKillIsCareful(KillStep(w), actions);
    }
  }

  /** The hazard is real: two half-failed saves lead to an unsafe place. */
  lemma UnsafeKillIsReachable() returns (actions: seq<Action>, w: World)
    ensures Reaches(Init(true), actions, w) && NoKill(actions) && !KillSafe(w)
  {
    var before, w1, b1 := OneHalfSaved();
    var a := StartAsync(2, NotSynced(false));
    w := HalfSaved(w1, b1.traffic, 2);
    OneStep(w1, a);
    ReachesJoin(Init(true), before, w1, [a], w);
    actions := before + [a];
    var b2 := Batch(Some(2), b1.traffic);
    assert w.store.disk.slot == Some(b2) && Some(b1) in w.store.disk.afterCrash;
    assert 0 in OriginOf(w.origin, Some(b1)) && 0 in OriginOf(w.origin, Some(b2));
  }
}
