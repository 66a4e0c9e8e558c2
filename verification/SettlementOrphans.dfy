/**
 A delivery goroutine that outlives its service: its late success clears the slot
 by path, and what the successor keeps there by then may not be its own batch.
 */
module SettlementOrphans {
  import opened Wrappers
  import opened Traffic
  import opened Spool
  import opened Reporting
  import opened Settlement
  import opened SettlementProof
  import opened SettlementResults
  import opened SettlementRestarts

  /** The ticks of a batch in doubt are settled nowhere and held nowhere else. */
  lemma InDoubtTick(w: World) returns (t: nat)
    requires Inv(w, true) && w.store.durable && InDoubt(w)
    ensures t in OriginOf(w.origin, w.store.pending) && t < |w.log|
    ensures t !in w.held && t !in SettledTicks(w) && !Gone(w, t)
  {
    var i := w.store.pending.value.id.value;
    assert Known(w.issued, w.store.pending.value) && i in w.origin && i in Live(w);
    ghost var _ := SomeMember(w.origin[i]);
    t :| t in w.origin[i];
    forall j | j in w.ledger && j in w.origin
      ensures t !in w.origin[j]
    {
      assert j in Live(w) && j != i;
    }
  }

  /** With a batch in doubt, the clear leaves it to memory alone: the next crash loses it. */
  lemma OrphanClearLoses(w: World, a: Action) returns (t: nat)
    requires Inv(w, true) && w.store.durable && Enabled(w, a) && OrphanClears(w, a) && InDoubt(w)
    ensures var w' := Step(w, a);
            && Enabled(w', Crash(None)) && Gone(CrashStep(w', None), t)
            && !Gone(w', t) && t !in w'.held
    ensures !Coupled(Step(w, a))
  {
    var w' := Step(w, a);
    ClearedDisk(w.store.disk, a.clear);
    t := InDoubtTick(w);
    assert w'.store.pending == w.store.pending && None in w'.store.disk.afterCrash;
    assert SettledTicks(w') == SettledTicks(w);
    assert SettledTicks(CrashStep(w', None)) == SettledTicks(w);
  }

  /** An orphan's clear is harmless exactly when the serving controller has nothing in doubt. */
  lemma OrphanClearHarmlessIff(w: World, a: Action)
    requires Inv(w, true) && w.store.durable && Enabled(w, a) && OrphanClears(w, a)
    ensures CostsOnlyTheTracker(Step(w, a)) <==> !InDoubt(w)
  {
    if InDoubt(w) {
      var t := OrphanClearLoses(w, a);
      assert Restarts(Crash(None));
    } else {
      QuietClearCouples(w, a);
      CoupledCosts(Step(w, a));
    }
  }

  lemma QuietClearCouples(w: World, a: Action)
    requires Inv(w, true) && w.store.durable && Enabled(w, a) && OrphanClears(w, a) && !InDoubt(w)
    ensures Inv(Step(w, a), true) && Step(w, a).store.durable
  {
    StepInv(w, true, a);
    DurableStep(w, a);
  }

  /** The coupling of memory and disk survives it in the same cases. */
  lemma OrphanClearCouplesIff(w: World, a: Action)
    requires Inv(w, true) && w.store.durable && Enabled(w, a) && OrphanClears(w, a)
    ensures Coupled(Step(w, a)) <==> !InDoubt(w)
  {
    if InDoubt(w) {
      var t := OrphanClearLoses(w, a);
    } else {
      QuietClearCouples(w, a);
    }
  }

  /** While the slot can be trusted, that can be read off it: it is empty, holds the orphan's own batch, or a settled one. */
  lemma DoubtShowsInTheSlot(w: World, a: Action)
    requires Inv(w, true) && w.store.durable && Enabled(w, a) && OrphanClears(w, a) && Trusted(w.store.disk)
    ensures !InDoubt(w) <==>
            var slot := w.store.disk.slot;
            slot.None? || slot.value.id == BatchOf(w, a.th).id || Settled(w, slot.value)
  {
    assert FlightKnown(FlightOf(w, a.th).value, w.issued, w.sent, w.ledger);
    if InDoubt(w) {
      InDoubtIsTrusted(w);
    }
  }

  // ----- the losing run -----

  const X := Batch(Some(1), SOME_TRAFFIC)
  const Y := Batch(Some(4), SOME_TRAFFIC)

  lemma Then(from: World, actions: seq<Action>, w: World, a: Action)
    requires Reaches(from, actions, w) && GentleRun(from, actions) && Enabled(w, a) && Gentle(w, a)
    ensures Reaches(from, actions + [a], Step(w, a)) && GentleRun(from, actions + [a])
  {
    OneStep(w, a);
    ReachesJoin(from, actions, w, [a], Step(w, a));
  }

  /** X is spooled and on its way. */
  function Sending(): World {
    World(Store(true, map[], Some(X), Disk(Some(X), {Some(X)})), Some(Flight(X, Waiting)), Serving, map[],
          {1}, [], [SOME_TRAFFIC], {}, map[1 := X], map[1 := {0}])
  }

  /** The shutdown push has failed, the goroutine lives on, and the successor has loaded X. */
  function Succeeded(): World {
    Sending().(async := None, orphans := map[0 := Orphaned(Flight(X, Waiting), true)])
  }

  /** The successor has settled and cleared X. */
  function Cleared1(): World {
    Succeeded().(store := Store(true, map[], None, EMPTY_DISK), ledger := [1])
  }

  /** It has spooled Y, and the orphan learns that X was accepted. */
  function Overtaken(): World {
    Cleared1().(store := Store(true, map[], Some(Y), Disk(Some(Y), {Some(Y)})), async := Some(Flight(Y, Ready)),
                orphans := map[0 := Orphaned(Flight(X, Accepted), true)],
                log := [SOME_TRAFFIC, SOME_TRAFFIC], issued := map[1 := X, 4 := Y], origin := map[1 := {0}, 4 := {1}])
  }

  lemma RunToSending() returns (actions: seq<Action>)
    ensures Reaches(Init(true), actions, Sending()) && GentleRun(Init(true), actions)
  {
    PlusEmpty(SOME_TRAFFIC);
    assert 1 in SOME_TRAFFIC;
    var w0 := Init(true);
    Then(w0, [], w0, Tick(SOME_TRAFFIC));
    var w1 := TickStep(w0, SOME_TRAFFIC);
    assert w1 == w0.(store := w0.store.(tracker := SOME_TRAFFIC), log := [SOME_TRAFFIC], held := {0});
    actions := [] + [Tick(SOME_TRAFFIC)];
    Then(w0, actions, w1, StartAsync(1, Saved));
    var w2 := StartAsyncStep(w1, 1, Saved);
    assert w2 == Sending().(async := Some(Flight(X, Ready)), sent := {});
    actions := actions + [StartAsync(1, Saved)];
    Then(w0, actions, w2, Hand(Async));
    actions := actions + [Hand(Async)];
    assert HandStep(w2, Async) == Sending();
  }

  lemma RunToSucceeded() returns (actions: seq<Action>)
    ensures Reaches(Sending(), actions, Succeeded()) && GentleRun(Sending(), actions)
  {
    var w0 := Sending();
    Then(w0, [], w0, StartShutdown);
    var w1 := w0.(main := Next(false, true));
    actions := [] + [StartShutdown];
    Then(w0, actions, w1, NextSync(2, Saved));
    var w2 := w0.(main := Pushing(Flight(X, Ready), false, true));
    assert NextSyncStep(w1, 2, Saved) == w2;
    actions := actions + [NextSync(2, Saved)];
    Then(w0, actions, w2, Hand(Sync));
    var w3 := w0.(main := Pushing(Flight(X, Waiting), false, true));
    assert HandStep(w2, Sync) == w3;
    actions := actions + [Hand(Sync)];
    Then(w0, actions, w3, Answer(Sync, false));
    var w4 := w0.(main := Stopped);
    assert AnswerStep(w3, Sync, false) == w4;
    actions := actions + [Answer(Sync, false)];
    Then(w0, actions, w4, Succeed(0));
    actions := actions + [Succeed(0)];
    assert SucceedStep(w4, 0) == Succeeded();
  }

  lemma RunToCleared() returns (actions: seq<Action>)
    ensures Reaches(Succeeded(), actions, Cleared1()) && GentleRun(Succeeded(), actions)
  {
    var w0 := Succeeded();
    Then(w0, [], w0, StartAsync(3, Saved));
    var w1 := w0.(async := Some(Flight(X, Ready)));
    assert StartAsyncStep(w0, 3, Saved) == w1;
    actions := [] + [StartAsync(3, Saved)];
    Then(w0, actions, w1, Hand(Async));
    var w2 := w0.(async := Some(Flight(X, Waiting)));
    assert HandStep(w1, Async) == w2;
    actions := actions + [Hand(Async)];
    Then(w0, actions, w2, Commit(1));
    assert w2.ledger + [1] == [1];
    assert Step(w2, Commit(1)) == Committed();
    actions := actions + [Commit(1)];
    var rest := CommittedToCleared();
    ReachesJoin(w0, actions, Committed(), rest, Cleared1());
    actions := actions + rest;
  }

  function Committed(): World {
    Succeeded().(async := Some(Flight(X, Waiting)), ledger := [1])
  }

  lemma CommittedToCleared() returns (actions: seq<Action>)
    ensures Reaches(Committed(), actions, Cleared1()) && GentleRun(Committed(), actions)
  {
    var w0 := Committed();
    Then(w0, [], w0, Answer(Async, true));
    var w1 := w0.(async := Some(Flight(X, Accepted)));
    actions := [] + [Answer(Async, true)];
    Then(w0, actions, w1, Acknowledge(Async, Cleared));
    actions := actions + [Acknowledge(Async, Cleared)];
    assert AcknowledgeStep(w1, Async, Cleared) == Cleared1();
  }

  /** A second tick is counted. */
  function Counting(): World {
    Cleared1().(store := Store(true, SOME_TRAFFIC, None, EMPTY_DISK), log := [SOME_TRAFFIC, SOME_TRAFFIC], held := {1})
  }

  lemma CountingIsNext()
    ensures Enabled(Cleared1(), Tick(SOME_TRAFFIC)) && TickStep(Cleared1(), SOME_TRAFFIC) == Counting()
  {
    PlusEmpty(SOME_TRAFFIC);
  }

  lemma RunToOvertaken() returns (actions: seq<Action>)
    ensures Reaches(Cleared1(), actions, Overtaken()) && GentleRun(Cleared1(), actions)
  {
    assert 1 in SOME_TRAFFIC;
    var w0 := Cleared1();
    CountingIsNext();
    Then(w0, [], w0, Tick(SOME_TRAFFIC));
    actions := [] + [Tick(SOME_TRAFFIC)];
    Then(w0, actions, Counting(), StartAsync(4, Saved));
    var w2 := StartAsyncStep(Counting(), 4, Saved);
    assert w2 == Overtaken().(orphans := w0.orphans);
    actions := actions + [StartAsync(4, Saved)];
    Then(w0, actions, w2, Answer(Orphan(0), true));
    actions := actions + [Answer(Orphan(0), true)];
    assert AnswerStep(w2, Orphan(0), true) == Overtaken();
  }

  /**
   Such a moment is reached without any failed file operation, kill or crash: the
   orphan's clear removes the record of Y, and a crash then loses Y's tick.
   */
  lemma OrphanLosesSuccessorsBatch() returns (actions: seq<Action>, w: World)
    ensures Reaches(Init(true), actions, w) && GentleRun(Init(true), actions)
    ensures var a := Acknowledge(Orphan(0), Cleared);
            && Enabled(w, a) && OrphanClears(w, a) && InDoubt(w)
            && !Gone(Step(w, a), 1) && 1 !in Step(w, a).held
            && Enabled(Step(w, a), Crash(None)) && Gone(CrashStep(Step(w, a), None), 1)
  {
    var first := RunToSending();
    var second := RunToSucceeded();
    var third := RunToCleared();
    var fourth := RunToOvertaken();
    ReachesJoin(Init(true), first, Sending(), second, Succeeded());
    ReachesJoin(Init(true), first + second, Succeeded(), third, Cleared1());
    ReachesJoin(Init(true), first + second + third, Cleared1(), fourth, Overtaken());
    actions, w := first + second + third + fourth, Overtaken();
    OvertakenLoses();
  }

  lemma OvertakenLoses()
    ensures var w, a := Overtaken(), Acknowledge(Orphan(0), Cleared);
            && Enabled(w, a) && OrphanClears(w, a) && InDoubt(w)
            && !Gone(Step(w, a), 1) && 1 !in Step(w, a).held
            && Enabled(Step(w, a), Crash(None)) && Gone(CrashStep(Step(w, a), None), 1)
  {
    var w := Overtaken();
    assert 1 in OriginOf(w.origin, Some(Y));
    assert w.ledger == [1] && w.origin[1] == {0};
  }
}
