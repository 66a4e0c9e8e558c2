/** Every step of the settlement protocol keeps its invariant, part by part. */
module SettlementProof {
  import opened Wrappers
  import opened Traffic
  import opened Spool
  import opened Reporting
  import opened Settlement

  lemma InitInv(durable: bool)
    ensures Inv(Init(durable), true)
  {
  }

  // ----- the tracker -----

  lemma TickAccounted(w: World, delta: TrafficMap)
    requires Accounted(w) && NonNegative(delta)
    ensures Accounted(TickStep(w, delta))
  {
    var w' := TickStep(w, delta);
    forall i, uid, d | i in w.issued && i in w.origin
      ensures At(w.issued[i].traffic, uid, d) == Share(w'.log, w.origin[i], uid, d)
    {
      ShareExtend(w.log, delta, w.origin[i], uid, d);
    }
    forall uid, d
      ensures At(w'.store.tracker, uid, d) == Share(w'.log, w'.held, uid, d)
    {
      ShareExtend(w.log, delta, w.held, uid, d);
      PlusAt(w.store.tracker, delta, uid, d);
    }
  }

  lemma TickApart(w: World, delta: TrafficMap)
    requires Accounted(w) && Apart(w)
    ensures Apart(TickStep(w, delta))
  {
    assert Live(TickStep(w, delta)) == Live(w);
    assert |w.log| !in w.held;
    assert forall th :: FlightOf(TickStep(w, delta), th) == FlightOf(w, th);
  }

  lemma TickInv(w: World, strict: bool, delta: TrafficMap)
    requires Inv(w, strict) && NonNegative(delta)
    ensures Inv(TickStep(w, delta), strict)
  {
    TickAccounted(w, delta);
    TickApart(w, delta);
    assert forall th :: FlightOf(TickStep(w, delta), th) == FlightOf(w, th);
  }

  // ----- flights -----

  lemma SetFlightIs(w: World, th: Thread, f: Flight)
    requires FlightOf(w, th).Some?
    ensures forall th2 :: FlightOf(SetFlight(w, th, f), th2) == if th2 == th then Some(f) else FlightOf(w, th2)
    ensures f.batch == BatchOf(w, th) ==> OrphanIds(SetFlight(w, th, f).orphans) == OrphanIds(w.orphans)
    ensures SetFlight(w, th, f).orphans.Keys == w.orphans.Keys
  {
    if th.Orphan? && f.batch == BatchOf(w, th) {
      var o := SetFlight(w, th, f).orphans;
      assert forall key :: key in o ==> o[key].flight.batch == w.orphans[key].flight.batch;
      assert forall key :: key in w.orphans ==> o[key].flight.batch == w.orphans[key].flight.batch;
    }
  }

  lemma EndFlightIs(w: World, th: Thread, ok: bool)
    requires FlightOf(w, th).Some?
    ensures forall th2 :: FlightOf(EndFlight(w, th, ok), th2) == if th2 == th then None else FlightOf(w, th2)
    ensures OrphanIds(EndFlight(w, th, ok).orphans) <= OrphanIds(w.orphans)
  {
  }

  /** Fewer live batches, and everything else the same. */
  lemma FewerLiveApart(w: World, w': World)
    requires Apart(w) && Live(w') <= Live(w)
    requires w'.store == w.store && w'.sent == w.sent && w'.origin == w.origin && w'.held == w.held && w'.ledger == w.ledger
    requires forall th :: FlightOf(w', th).Some? && !th.Orphan? ==> FlightOf(w, th).Some? && BatchOf(w', th) == BatchOf(w, th)
    ensures Apart(w')
  {
    LeftoversOfFewer(w.store.disk, w.store.disk, Live(w), Live(w'), w.origin);
  }

  /** A batch that is no longer live is aside of those that are. */
  lemma LeftoversOfFewer(d: Disk, d': Disk, live: set<BatchId>, live': set<BatchId>, origin: map<BatchId, set<nat>>)
    requires LeftoversApart(d, live, origin) && live' <= live
    requires forall b :: Some(b) in d'.afterCrash ==> Some(b) in d.afterCrash
    requires forall i, j :: i in live && j in live && i != j && i in origin && j in origin ==> origin[i] !! origin[j]
    ensures LeftoversApart(d', live', origin)
  {
    forall b | Some(b) in d'.afterCrash && b.id.Some?
      ensures b.id.value in live' || Aside(b, live', origin)
    {
      assert Some(b) in d.afterCrash;
    }
  }

  lemma EndFlightInv(w: World, strict: bool, th: Thread, ok: bool)
    requires Inv(w, strict) && FlightOf(w, th).Some?
    ensures Inv(EndFlight(w, th, ok), strict)
  {
    var w' := EndFlight(w, th, ok);
    EndFlightIs(w, th, ok);
    FewerLiveApart(w, w');
  }

  lemma ShutdownInv(w: World, strict: bool)
    requires Inv(w, strict) && w.main.Serving?
    ensures Inv(ShutdownStep(w), strict)
  {
    var w' := ShutdownStep(w);
    assert forall th :: FlightOf(w', th) == FlightOf(w, th);
    FewerLiveApart(w, w');
  }

  /** What is handed over was live already. */
  lemma HandLive(w: World, strict: bool, th: Thread)
    requires Inv(w, strict) && InPhase(w, th, Ready)
    ensures Live(HandStep(w, th)) == Live(w)
  {
    var f := FlightOf(w, th).value;
    SetFlightIs(w, th, f.(phase := Waiting));
    assert FlightKnown(f, w.issued, w.sent, w.ledger);
    if !th.Orphan? {
      assert Covers(w.store.pending, w.ledger, f.batch);
    } else if f.batch.id.Some? {
      assert f.batch.id.value in OrphanIds(w.orphans);
    }
  }

  lemma HandFlights(w: World, th: Thread)
    requires Flights(w) && InPhase(w, th, Ready)
    ensures Flights(HandStep(w, th))
  {
    var f, w' := FlightOf(w, th).value, HandStep(w, th);
    SetFlightIs(w, th, f.(phase := Waiting));
    assert FlightKnown(f, w.issued, w.sent, w.ledger);
    forall th2 | FlightOf(w', th2).Some?
      ensures FlightKnown(FlightOf(w', th2).value, w'.issued, w'.sent, w'.ledger)
    {
      assert FlightOf(w, th2).Some? && FlightKnown(FlightOf(w, th2).value, w.issued, w.sent, w.ledger);
    }
  }

  lemma HandPlaced(w: World, th: Thread)
    requires Placed(w) && InPhase(w, th, Ready)
    ensures Placed(HandStep(w, th))
  {
    HandFlights(w, th);
    assert FlightKnown(FlightOf(w, th).value, w.issued, w.sent, w.ledger);
  }

  lemma HandApart(w: World, strict: bool, th: Thread)
    requires Inv(w, strict) && InPhase(w, th, Ready)
    ensures Apart(HandStep(w, th))
  {
    var w' := HandStep(w, th);
    HandLive(w, strict, th);
    SetFlightIs(w, th, FlightOf(w, th).value.(phase := Waiting));
    forall th2 | FlightOf(w', th2).Some? && !th2.Orphan?
      ensures Covers(w'.store.pending, w'.ledger, BatchOf(w', th2))
    {
      assert FlightOf(w, th2).Some? && BatchOf(w', th2) == BatchOf(w, th2);
    }
  }

  lemma HandCoupled(w: World, th: Thread)
    requires Inv(w, true) && InPhase(w, th, Ready)
    ensures Coupled(HandStep(w, th))
  {
    var f, w' := FlightOf(w, th).value, HandStep(w, th);
    SetFlightIs(w, th, f.(phase := Waiting));
    if w.store.durable {
      assert Covers(w.store.pending, w.ledger, f.batch);
      assert FlightKnown(f, w.issued, w.sent, w.ledger);
      forall key | key in w'.orphans
        ensures Covers(w'.store.pending, w'.ledger, w'.orphans[key].flight.batch)
      {
        assert key in w.orphans && w'.orphans[key].flight.batch == w.orphans[key].flight.batch;
      }
    }
  }

  lemma HandInv(w: World, strict: bool, th: Thread)
    requires Inv(w, strict) && InPhase(w, th, Ready)
    ensures Inv(HandStep(w, th), strict)
  {
    HandPlaced(w, th);
    HandApart(w, strict, th);
    if strict {
      HandCoupled(w, th);
    }
  }

  lemma CommitApart(w: World, id: BatchId)
    requires Apart(w)
    ensures Apart(w.(ledger := w.ledger + [id]))
  {
    var w' := w.(ledger := w.ledger + [id]);
    assert Live(w') == Live(w);
    forall th | FlightOf(w', th).Some? && !th.Orphan?
      ensures Covers(w'.store.pending, w'.ledger, BatchOf(w', th))
    {
      assert FlightOf(w, th).Some? && BatchOf(w', th) == BatchOf(w, th);
    }
  }

  lemma CommitPlaced(w: World, id: BatchId)
    requires Placed(w) && id in w.sent && id !in w.ledger
    ensures Placed(w.(ledger := w.ledger + [id]))
  {
    var w' := w.(ledger := w.ledger + [id]);
    forall th | FlightOf(w', th).Some?
      ensures FlightKnown(FlightOf(w', th).value, w'.issued, w'.sent, w'.ledger)
    {
      assert FlightOf(w, th).Some?;
    }
  }

  lemma CommitCoupled(w: World, id: BatchId)
    requires Inv(w, true) && id in w.sent
    ensures Coupled(w.(ledger := w.ledger + [id]))
  {
    var w' := w.(ledger := w.ledger + [id]);
    if w.store.durable {
      var slot := w.store.disk.slot;
      if slot.Some? && slot.value.id == Some(id) && id !in w.ledger {
        assert w.store.pending == slot;
      }
    }
  }

  lemma CommitInv(w: World, strict: bool, id: BatchId)
    requires Inv(w, strict) && id in w.sent && id !in w.ledger
    ensures Inv(w.(ledger := w.ledger + [id]), strict)
  {
    CommitApart(w, id);
    CommitPlaced(w, id);
    if strict {
      CommitCoupled(w, id);
    }
  }

  lemma SetPhaseInv(w: World, strict: bool, th: Thread, f: Flight)
    requires Inv(w, strict) && FlightOf(w, th).Some? && f.batch == BatchOf(w, th)
    requires FlightKnown(f, w.issued, w.sent, w.ledger)
    ensures Inv(SetFlight(w, th, f), strict)
  {
    var w' := SetFlight(w, th, f);
    SetFlightIs(w, th, f);
    FewerLiveApart(w, w');
    if strict && w.store.durable {
      forall key | key in w'.orphans
        ensures Covers(w'.store.pending, w'.ledger, w'.orphans[key].flight.batch)
      {
        assert key in w.orphans && w'.orphans[key].flight.batch == w.orphans[key].flight.batch;
      }
    }
  }

  lemma AnswerInv(w: World, strict: bool, th: Thread, ok: bool)
    requires Inv(w, strict) && InPhase(w, th, Waiting) && (ok ==> Answerable(BatchOf(w, th), w.ledger))
    ensures Inv(AnswerStep(w, th, ok), strict)
  {
    var f := FlightOf(w, th).value;
    assert FlightKnown(f, w.issued, w.sent, w.ledger);
    if ok {
      SetPhaseInv(w, strict, th, f.(phase := Accepted));
    } else {
      EndFlightInv(w, strict, th, false);
      assert AnswerStep(w, th, false) == EndFlight(w, th, false);
    }
  }

  // ----- acknowledging -----

  /** Removing the file in the slot takes at most one possible content away. */
  lemma ClearedDisk(d: Disk, clear: ClearOutcome)
    requires d.slot in d.afterCrash
    ensures ClearSpec(d, clear).slot in ClearSpec(d, clear).afterCrash
    ensures forall b :: Some(b) in ClearSpec(d, clear).afterCrash ==> Some(b) in d.afterCrash
    ensures clear != NotRemoved ==> ClearSpec(d, clear).slot == None && None in ClearSpec(d, clear).afterCrash
  {
  }

  /** The store after a clear that may also forget the pending batch. */
  function Released(s: Store, clear: ClearOutcome, forget: bool): Store {
    s.(disk := ClearSpec(s.disk, clear), pending := if forget then None else s.pending)
  }

  lemma ReleaseApart(w: World, clear: ClearOutcome, forget: bool)
    requires Apart(w) && Placed(w)
    requires forget ==> w.store.pending.Some? && Settled(w, w.store.pending.value)
    ensures Apart(w.(store := Released(w.store, clear, forget)))
  {
    var w' := w.(store := Released(w.store, clear, forget));
    ClearedDisk(w.store.disk, clear);
    assert Live(w') <= Live(w);
    forall th | FlightOf(w', th).Some? && !th.Orphan?
      ensures Covers(w'.store.pending, w'.ledger, BatchOf(w', th))
    {
      assert FlightOf(w, th).Some? && BatchOf(w', th) == BatchOf(w, th);
    }
    LeftoversOfFewer(w.store.disk, w'.store.disk, Live(w), Live(w'), w.origin);
  }

  lemma ReleaseCoupled(w: World, clear: ClearOutcome, forget: bool)
    requires Coupled(w) && Placed(w) && Accounted(w) && w.store.durable
    requires clear == NotRemoved || w.store.pending.None? || Settled(w, w.store.pending.value)
    requires forget ==> w.store.pending.Some? && Settled(w, w.store.pending.value)
    requires forget ==> clear.Cleared?
    ensures Coupled(w.(store := Released(w.store, clear, forget)))
  {
    ClearedDisk(w.store.disk, clear);
  }

  /** Forgetting a settled batch, or clearing a slot that nobody needs, leaves every other fact alone. */
  lemma ReleaseInv(w: World, strict: bool, clear: ClearOutcome, forget: bool)
    requires Inv(w, strict) && w.store.durable
    requires strict ==> clear == NotRemoved || w.store.pending.None? || Settled(w, w.store.pending.value)
    requires forget ==> w.store.pending.Some? && Settled(w, w.store.pending.value) && clear.Cleared?
    ensures Inv(w.(store := Released(w.store, clear, forget)), strict)
  {
    var w' := w.(store := Released(w.store, clear, forget));
    ClearedDisk(w.store.disk, clear);
    ReleaseApart(w, clear, forget);
    assert forall th :: FlightOf(w', th) == FlightOf(w, th);
    if strict {
      ReleaseCoupled(w, clear, forget);
    }
  }

  /** Without a spool only the memory is cleared. */
  lemma ForgetInv(w: World, strict: bool)
    requires Inv(w, strict) && !w.store.durable
    requires w.store.pending.Some? && Settled(w, w.store.pending.value)
    ensures Inv(w.(store := w.store.(pending := None)), strict)
  {
    var w' := w.(store := w.store.(pending := None));
    ReleaseApart(w, Cleared, true);
    assert forall th :: FlightOf(w', th) == FlightOf(w, th);
  }

  /** The store part of an acknowledgement, for the serving controller and for orphans. */
  lemma AcknowledgedInv(w: World, strict: bool, th: Thread, clear: ClearOutcome)
    requires Inv(w, strict) && InPhase(w, th, Accepted)
    requires strict ==> !(OrphanClears(w, Acknowledge(th, clear)) && InDoubt(w))
    ensures Inv(w.(store := AcknowledgedStore(w, th, clear).store), strict)
  {
    var s, b := w.store, BatchOf(w, th);
    var s' := AcknowledgedStore(w, th, clear).store;
    assert FlightKnown(FlightOf(w, th).value, w.issued, w.sent, w.ledger);
    if th.Orphan? {
      if s.durable && w.orphans[th.key].clears {
        ReleaseInv(w, strict, clear, false);
        assert s' == Released(s, clear, false);
      }
    } else if IsPending(s, b) {
      assert s.pending == Some(b) && Settled(w, b);
      if !s.durable {
        ForgetInv(w, strict);
      } else {
        ReleaseInv(w, strict, clear, clear.Cleared?);
        assert s' == Released(s, clear, clear.Cleared?);
      }
    }
  }

  lemma AcknowledgeInv(w: World, strict: bool, th: Thread, clear: ClearOutcome)
    requires Inv(w, strict) && InPhase(w, th, Accepted)
    requires strict ==> !(OrphanClears(w, Acknowledge(th, clear)) && InDoubt(w))
    ensures Inv(AcknowledgeStep(w, th, clear), strict)
  {
    var r := AcknowledgedStore(w, th, clear);
    var released := w.(store := r.store);
    AcknowledgedInv(w, strict, th, clear);
    assert FlightOf(released, th) == FlightOf(w, th);
    EndFlightInv(released, strict, th, r.ok);
    assert EndFlight(released, th, r.ok) == AcknowledgeStep(w, th, clear);
  }

  // ----- restarts -----

  /** What a new service may find in the slot without ever settling a tick twice. */
  ghost predicate MayRemain(w: World, left: Option<Batch>) {
    && (!w.store.durable ==> left == None)
    && (left.Some? ==>
          && Known(w.issued, left.value)
          && (left.value.id.value in Live(w) || Aside(left.value, Live(w), w.origin)))
  }

  /** Nothing that the disk may fall back to overlaps what the new service has loaded. */
  ghost predicate FallsBackApart(w: World, left: Option<Batch>, disk: Disk) {
    && left in disk.afterCrash && disk.slot in disk.afterCrash && disk.afterCrash <= w.store.disk.afterCrash
    && (forall b :: Some(b) in disk.afterCrash && left.Some? && Some(b) != left ==>
          OriginOf(w.origin, Some(b)) !! OriginOf(w.origin, left))
  }

  lemma RestartAccounted(w: World, left: Option<Batch>, disk: Disk)
    requires Accounted(w)
    ensures Accounted(Restart(w, left, disk))
  {
    forall uid, d
      ensures At(map[], uid, d) == Share(w.log, {}, uid, d)
    {
      ShareEmpty(w.log, uid, d);
    }
  }

  lemma RestartPlaced(w: World, left: Option<Batch>, disk: Disk)
    requires Placed(w) && MayRemain(w, left) && FallsBackApart(w, left, disk)
    ensures Placed(Restart(w, left, disk))
  {
    var w' := Restart(w, left, disk);
    assert forall th :: FlightOf(w', th) == None;
    if !w.store.durable {
      assert disk.afterCrash == {None};
    }
  }

  /** `orphans` are the flights that survive; they were live before. */
  lemma RestartApart(w: World, left: Option<Batch>, disk: Disk, orphans: map<nat, Orphaned>)
    requires Placed(w) && Apart(w) && MayRemain(w, left) && FallsBackApart(w, left, disk)
    requires OrphanIds(orphans) <= Live(w)
    ensures Apart(Restart(w, left, disk).(orphans := orphans))
  {
    var w' := Restart(w, left, disk).(orphans := orphans);
    RestartLiveApart(w, left);
    assert Live(w') <= Live(w) + IdOf(left);
    forall b | Some(b) in disk.afterCrash && b.id.Some?
      ensures b.id.value in Live(w') || Aside(b, Live(w'), w.origin)
    {
      if left != Some(b) {
        LeftoverAside(w, left, b);
      }
    }
  }

  lemma RestartLiveApart(w: World, left: Option<Batch>)
    requires Placed(w) && Apart(w) && MayRemain(w, left)
    ensures LiveApart(Live(w) + IdOf(left), w.origin, {})
  {
    if left.Some? && left.value.id.value !in Live(w) {
      assert Aside(left.value, Live(w), w.origin);
    }
  }

  /** A leftover is live, or aside of everything live and of what was loaded. */
  lemma LeftoverAside(w: World, left: Option<Batch>, b: Batch)
    requires Apart(w) && b.id.Some? && Some(b) in w.store.disk.afterCrash
    requires left.Some? ==> left.value.id.Some? && OriginOf(w.origin, Some(b)) !! OriginOf(w.origin, left)
    ensures forall i :: i in Live(w) + IdOf(left) && i in w.origin && i != b.id.value ==>
              w.origin[i] !! OriginOf(w.origin, Some(b))
  {
  }

  lemma CrashInv(w: World, strict: bool, left: Option<Batch>)
    requires Inv(w, strict) && left in w.store.disk.afterCrash
    ensures Inv(CrashStep(w, left), strict)
  {
    var disk := Disk(left, {left});
    RestartAccounted(w, left, disk);
    RestartPlaced(w, left, disk);
    RestartApart(w, left, disk, map[]);
    if strict && w.store.durable {
      CrashCoupled(w, left);
    }
  }

  lemma CrashCoupled(w: World, left: Option<Batch>)
    requires Inv(w, true) && w.store.durable && left in w.store.disk.afterCrash
    ensures Coupled(CrashStep(w, left))
  {
  }

  /** With a trusted slot the new service takes over what the old one had in doubt. */
  lemma KillCoupled(w: World)
    requires Inv(w, true) && w.store.durable && Trusted(w.store.disk)
    ensures Coupled(KillStep(w))
  {
  }

  lemma KillInv(w: World, strict: bool)
    requires Inv(w, strict) && KillSafe(w)
    requires strict ==> Trusted(w.store.disk)
    ensures Inv(KillStep(w), strict)
  {
    var d := w.store.disk;
    RestartAccounted(w, d.slot, d);
    RestartPlaced(w, d.slot, d);
    RestartApart(w, d.slot, d, map[]);
    if strict && w.store.durable {
      KillCoupled(w);
    }
  }

  lemma SucceedInv(w: World, strict: bool, key: nat)
    requires Inv(w, strict) && KillSafe(w) && key !in w.orphans
    requires strict ==> Trusted(w.store.disk)
    ensures Inv(SucceedStep(w, key), strict)
  {
    var d, w' := w.store.disk, SucceedStep(w, key);
    RestartAccounted(w, d.slot, d);
    RestartPlaced(w, d.slot, d);
    SucceedFlights(w, key);
    RestartApart(w, d.slot, d, w'.orphans);
    if strict && w.store.durable {
      KillCoupled(w);
      SucceedCoupled(w, key);
    }
  }

  lemma SucceedFlights(w: World, key: nat)
    requires Placed(w) && Apart(w) && key !in w.orphans
    ensures OrphanIds(SucceedStep(w, key).orphans) <= Live(w)
    ensures Flights(SucceedStep(w, key))
  {
    var w' := SucceedStep(w, key);
    if w.async.Some? {
      assert FlightOf(w, Async) == w.async;
    }
    forall th | FlightOf(w', th).Some?
      ensures FlightKnown(FlightOf(w', th).value, w.issued, w.sent, w.ledger)
    {
      assert FlightOf(w', th) == if th == Orphan(key) then FlightOf(w, Async) else FlightOf(w, th);
    }
    forall k | k in w'.orphans && w'.orphans[k].flight.batch.id.Some?
      ensures w'.orphans[k].flight.batch.id.value in Live(w)
    {
      if k != key {
        assert w.orphans[k].flight.batch.id.value in OrphanIds(w.orphans);
      }
    }
  }

  lemma SucceedCoupled(w: World, key: nat)
    requires Inv(w, true) && w.store.durable && Trusted(w.store.disk) && key !in w.orphans
    requires Coupled(KillStep(w))
    ensures Coupled(SucceedStep(w, key))
  {
    var w' := SucceedStep(w, key);
    if w.async.Some? {
      assert FlightOf(w, Async) == w.async;
    }
    forall k | k in w'.orphans
      ensures Covers(w'.store.pending, w.ledger, w'.orphans[k].flight.batch)
    {
      assert Covers(w.store.pending, w.ledger, w'.orphans[k].flight.batch);
    }
  }

  // ----- taking the tracker's ticks -----

  /** The world after the fresh ID was given out, before the ticks leave the tracker. */
  function Named(w: World, id: BatchId): World {
    Issue(w, id).(held := w.held)
  }

  lemma NamedAccounted(w: World, id: BatchId)
    requires Accounted(w) && Flushes(w.store) && id !in w.issued
    ensures Accounted(Named(w, id))
  {
  }

  lemma NamedPlaced(w: World, id: BatchId)
    requires Accounted(w) && Placed(w) && Flushes(w.store) && id !in w.issued
    ensures Placed(Named(w, id)) && id !in Live(w) && Live(Named(w, id)) == Live(w)
  {
    var w' := Named(w, id);
    forall th | FlightOf(w', th).Some?
      ensures FlightKnown(FlightOf(w', th).value, w'.issued, w'.sent, w'.ledger)
    {
      assert FlightOf(w, th) == FlightOf(w', th);
    }
    forall key | key in w.orphans && w.orphans[key].flight.batch.id.Some?
      ensures w.orphans[key].flight.batch.id.value in w.issued
    {
      assert FlightOf(w, Orphan(key)).Some?;
    }
  }

  lemma NamedApart(w: World, id: BatchId)
    requires Accounted(w) && Placed(w) && Apart(w) && Flushes(w.store) && id !in w.issued
    ensures Apart(Named(w, id))
  {
    var w' := Named(w, id);
    NamedPlaced(w, id);
    assert forall th :: FlightOf(w', th) == FlightOf(w, th);
    forall b | Some(b) in w.store.disk.afterCrash && b.id.Some?
      ensures b.id.value in Live(w) || Aside(b, Live(w), w'.origin)
    {
      assert Known(w.issued, b);
    }
  }

  lemma NamedCoupled(w: World, id: BatchId)
    requires Inv(w, true) && Flushes(w.store) && id !in w.issued
    ensures Coupled(Named(w, id))
  {
  }

  lemma NamedInv(w: World, strict: bool, id: BatchId)
    requires Inv(w, strict) && Flushes(w.store) && id !in w.issued
    ensures Inv(Named(w, id), strict)
  {
    NamedAccounted(w, id);
    NamedPlaced(w, id);
    NamedApart(w, id);
    if strict {
      NamedCoupled(w, id);
    }
  }

  /** A batch that has just been given its ID: nothing knows it but the books. */
  ghost predicate JustNamed(w: World, b: Batch) {
    && Known(w.issued, b) && b.id.value in w.origin && w.origin[b.id.value] == w.held
    && b.id.value !in Live(w) && Some(b) !in w.store.disk.afterCrash
    && w.store.pending.None?
  }

  lemma NamedIsJust(w: World, id: BatchId)
    requires Accounted(w) && Placed(w) && Flushes(w.store) && id !in w.issued
    ensures JustNamed(Named(w, id), Batch(Some(id), w.store.tracker))
  {
    NamedPlaced(w, id);
  }

  // ----- a failed save -----

  lemma SavedDisk(d: Disk, b: Batch, save: SaveOutcome)
    requires d.slot in d.afterCrash
    ensures SaveSpec(d, b, save).slot in SaveSpec(d, b, save).afterCrash
    ensures forall x :: x in SaveSpec(d, b, save).afterCrash ==> x in d.afterCrash || x == Some(b) || x == None
  {
  }

  lemma SaveFailedApart(w: World, b: Batch, save: SaveOutcome)
    requires Placed(w) && Apart(w) && JustNamed(w, b) && !save.Saved?
    ensures Apart(w.(store := w.store.(disk := SaveSpec(w.store.disk, b, save))))
  {
    var w' := w.(store := w.store.(disk := SaveSpec(w.store.disk, b, save)));
    SavedDisk(w.store.disk, b, save);
    assert Live(w') == Live(w);
    assert forall th :: FlightOf(w', th) == FlightOf(w, th);
    assert Aside(b, Live(w), w.origin);
  }

  lemma SaveFailedCoupled(w: World, b: Batch, save: SaveOutcome)
    requires Inv(w, true) && w.store.durable && JustNamed(w, b) && !save.Saved?
    ensures Coupled(w.(store := w.store.(disk := SaveSpec(w.store.disk, b, save))))
  {
    SavedDisk(w.store.disk, b, save);
  }

  /** A failed save may leave the batch in the slot, but its ticks stay where they were. */
  lemma SaveFailedInv(w: World, strict: bool, b: Batch, save: SaveOutcome)
    requires Inv(w, strict) && w.store.durable && JustNamed(w, b) && !save.Saved?
    ensures Inv(w.(store := w.store.(disk := SaveSpec(w.store.disk, b, save))), strict)
  {
    var w' := w.(store := w.store.(disk := SaveSpec(w.store.disk, b, save)));
    SavedDisk(w.store.disk, b, save);
    assert forall th :: FlightOf(w', th) == FlightOf(w, th);
    SaveFailedApart(w, b, save);
    if strict {
      SaveFailedCoupled(w, b, save);
    }
  }

  // ----- a saved batch -----

  /** The batch becomes pending, durably if there is a spool, and its ticks leave the tracker. */
  function Installed(w: World, b: Batch): World {
    var disk := if w.store.durable then SaveSpec(w.store.disk, b, Saved) else w.store.disk;
    w.(store := w.store.(tracker := map[], pending := Some(b), disk := disk), held := {})
  }

  lemma EmptyTracker(log: seq<TrafficMap>, issued: map<BatchId, Batch>, origin: map<BatchId, set<nat>>, held: set<nat>, tracker: TrafficMap)
    requires Books(log, issued, origin, held, tracker) && Amounts(log, issued, origin, held, tracker)
    ensures Books(log, issued, origin, {}, map[]) && Amounts(log, issued, origin, {}, map[])
  {
    forall uid, d
      ensures At(map[], uid, d) == Share(log, {}, uid, d)
    {
      ShareEmpty(log, uid, d);
    }
  }

  lemma InstallApart(w: World, b: Batch)
    requires Placed(w) && Apart(w) && JustNamed(w, b)
    ensures Apart(Installed(w, b))
  {
    var w' := Installed(w, b);
    assert Live(w') == Live(w) + {b.id.value};
    assert w'.store.disk.afterCrash <= w.store.disk.afterCrash + {Some(b)};
    forall th | FlightOf(w', th).Some? && !th.Orphan?
      ensures Covers(w'.store.pending, w'.ledger, BatchOf(w', th))
    {
      assert FlightOf(w, th).Some? && BatchOf(w', th) == BatchOf(w, th);
    }
    if !w.store.durable {
      assert w.store.disk.afterCrash == {None};
    }
  }

  lemma InstallCoupled(w: World, b: Batch)
    requires Inv(w, true) && w.store.durable && JustNamed(w, b)
    ensures Coupled(Installed(w, b))
  {
    var w' := Installed(w, b);
    assert w'.store.disk.afterCrash == {Some(b)};
    forall key | key in w.orphans
      ensures Covers(w'.store.pending, w'.ledger, w.orphans[key].flight.batch)
    {
      assert Covers(w.store.pending, w.ledger, w.orphans[key].flight.batch);
    }
  }

  lemma InstallInv(w: World, strict: bool, b: Batch)
    requires Inv(w, strict) && JustNamed(w, b)
    ensures Inv(Installed(w, b), strict)
  {
    var w' := Installed(w, b);
    EmptyTracker(w.log, w.issued, w.origin, w.held, w.store.tracker);
    assert forall th :: FlightOf(w', th) == FlightOf(w, th);
    InstallApart(w, b);
    if strict && w.store.durable {
      InstallCoupled(w, b);
    }
  }

  lemma DropInv(w: World, strict: bool)
    requires Inv(w, strict)
    ensures Inv(w.(store := w.store.(tracker := map[]), held := {}), strict)
  {
    var w' := w.(store := w.store.(tracker := map[]), held := {});
    EmptyTracker(w.log, w.issued, w.origin, w.held, w.store.tracker);
    assert forall th :: FlightOf(w', th) == FlightOf(w, th);
    assert Live(w') == Live(w);
  }

  // ----- starting deliveries -----

  lemma AsyncReadyInv(w: World, strict: bool, b: Batch)
    requires Inv(w, strict) && w.async.None?
    requires FlightKnown(Flight(b, Ready), w.issued, w.sent, w.ledger) && Covers(w.store.pending, w.ledger, b)
    ensures Inv(w.(async := Some(Flight(b, Ready))), strict)
  {
    var w' := w.(async := Some(Flight(b, Ready)));
    assert forall th :: FlightOf(w', th) == if th == Async then Some(Flight(b, Ready)) else FlightOf(w, th);
    assert Live(w') == Live(w);
  }

  lemma SyncReadyInv(w: World, strict: bool, b: Batch, second: bool, hadPending: bool)
    requires Inv(w, strict)
    requires FlightKnown(Flight(b, Ready), w.issued, w.sent, w.ledger) && Covers(w.store.pending, w.ledger, b)
    ensures Inv(w.(main := Pushing(Flight(b, Ready), second, hadPending)), strict)
  {
    var w' := w.(main := Pushing(Flight(b, Ready), second, hadPending));
    assert forall th :: FlightOf(w', th) == if th == Sync then Some(Flight(b, Ready)) else FlightOf(w, th);
    assert Live(w') == Live(w);
  }

  /** The lock-protected choice of a batch, for either caller and every outcome of the save. */
  lemma NextBatchInv(w: World, strict: bool, id: BatchId, save: SaveOutcome) returns (p: Prepared, kept: World)
    requires Inv(w, strict) && id !in w.issued
    ensures p == NextBatchSpec(w.store, id, save)
    ensures p.ok ==> kept == Issue(w, id).(store := p.store)
    ensures p.ok ==> FlightKnown(Flight(p.batch, Ready), kept.issued, kept.sent, kept.ledger)
    ensures p.ok ==> Covers(kept.store.pending, kept.ledger, p.batch)
    ensures !p.ok ==> kept == Named(w, id).(store := w.store.(disk := p.store.disk)) && p.batch.traffic == w.store.tracker
    ensures Inv(kept, strict)
  {
    p := NextBatchSpec(w.store, id, save);
    if !Flushes(w.store) {
      kept := w;
    } else {
      NamedInv(w, strict, id);
      NamedIsJust(w, id);
      var n, b := Named(w, id), Batch(Some(id), w.store.tracker);
      if p.ok {
        InstallInv(n, strict, b);
        kept := Installed(n, b);
      } else {
        SaveFailedInv(n, strict, b, save);
        kept := n.(store := w.store.(disk := p.store.disk));
      }
    }
  }

  lemma StartAsyncInv(w: World, strict: bool, id: BatchId, save: SaveOutcome)
    requires Inv(w, strict) && w.async.None? && id !in w.issued
    ensures Inv(StartAsyncStep(w, id, save), strict)
  {
    var p, kept := NextBatchInv(w, strict, id, save);
    if p.ok {
      AsyncReadyInv(kept, strict, p.batch);
    } else {
      PlusEmpty(w.store.tracker);
      assert StartAsyncStep(w, id, save) == kept;
    }
  }

  lemma StopInv(w: World, strict: bool)
    requires Inv(w, strict) && w.main.Next?
    ensures Inv(w.(main := Stopped), strict)
  {
    var w' := w.(main := Stopped);
    assert forall th :: FlightOf(w', th) == FlightOf(w, th);
    FewerLiveApart(w, w');
  }

  lemma NextSyncInv(w: World, strict: bool, id: BatchId, save: SaveOutcome)
    requires Inv(w, strict) && w.main.Next? && id !in w.issued
    ensures Inv(NextSyncStep(w, id, save), strict)
  {
    var p, kept := NextBatchInv(w, strict, id, save);
    if p.ok {
      SyncReadyInv(kept, strict, p.batch, w.main.second, w.main.hadPending);
    } else {
      DropInv(kept, strict);
      var dropped := kept.(store := kept.store.(tracker := map[]), held := {});
      StopInv(dropped, strict);
      assert NextSyncStep(w, id, save) == dropped.(main := Stopped);
    }
  }

  // ----- every step, every run -----

  lemma TrustedIsSafe(w: World)
    requires Trusted(w.store.disk)
    ensures KillSafe(w)
  {
  }

  lemma StepInv(w: World, strict: bool, a: Action)
    requires Inv(w, strict) && Enabled(w, a)
    requires if strict then Gentle(w, a) else EndsService(a) ==> KillSafe(w)
    ensures Inv(Step(w, a), strict)
  {
    if strict && EndsService(a) {
      TrustedIsSafe(w);
    }
    match a
    case Tick(delta) => TickInv(w, strict, delta);
    case StartAsync(id, save) => StartAsyncInv(w, strict, id, save);
    case StartShutdown => ShutdownInv(w, strict);
    case NextSync(id, save) => NextSyncInv(w, strict, id, save);
    case Hand(th) => HandInv(w, strict, th);
    case Commit(id) => CommitInv(w, strict, id);
    case Answer(th, ok) => AnswerInv(w, strict, th, ok);
    case Acknowledge(th, clear) => AcknowledgeInv(w, strict, th, clear);
    case Crash(left) => CrashInv(w, strict, left);
    case Kill => KillInv(w, strict);
    case Succeed(key) => SucceedInv(w, strict, key);
  }

  lemma {:induction false} RunInv(w: World, strict: bool, actions: seq<Action>, w': World)
    requires Inv(w, strict) && Reaches(w, actions, w')
    requires if strict then GentleRun(w, actions) else Careful(w, actions)
    ensures Inv(w', strict)
    decreases |actions|
  {
    if actions != [] {
      StepInv(w, strict, actions[0]);
      RunInv(Step(w, actions[0]), strict, actions[1..], w');
    }
  }
}
