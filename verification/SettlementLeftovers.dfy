/** What the disk may still hold in runs in which services end only with the machine. */
module SettlementLeftovers {
  import opened Wrappers
  import opened Traffic
  import opened Spool
  import opened Reporting
  import opened Settlement
  import opened SettlementProof
  import opened SettlementResults
  import opened SettlementRestarts

  /** Half-saved records were never sent; each later one contains the earlier ones, and the tracker still has them all. */
  ghost predicate Nested(w: World) {
    forall b :: Some(b) in w.store.disk.afterCrash && b.id.Some? ==>
      && b.id.value !in w.sent
      && (w.main.Stopped? || OriginOf(w.origin, Some(b)) <= w.held)
      && (w.store.disk.slot.Some? ==> OriginOf(w.origin, Some(b)) <= OriginOf(w.origin, w.store.disk.slot))
  }

  ghost predicate Tidy(w: World) {
    && w.orphans == map[]
    && (w.store.pending.None? ==> Nested(w))
    && (w.store.pending.Some? ==> forall b :: Some(b) in w.store.disk.afterCrash ==> Some(b) == w.store.pending)
  }

  lemma IssueTidy(w: World, id: BatchId, save: SaveOutcome)
    requires Inv(w, false) && Tidy(w) && id !in w.issued && !w.main.Stopped?
    ensures var p := NextBatchSpec(w.store, id, save);
            var i := Issue(w, id).(store := p.store);
            if p.ok then Tidy(i) else Tidy(i.(held := w.held)) && i.store.pending.None?
  {
    if Flushes(w.store) {
      NamedIsJust(w, id);
      NamedPlaced(w, id);
      var p, b := NextBatchSpec(w.store, id, save), Batch(Some(id), w.store.tracker);
      if p.ok {
        assert Tidy(Issue(w, id).(store := p.store));
      } else {
        HalfTidy(w, id, save);
      }
    }
  }

  lemma HalfTidy(w: World, id: BatchId, save: SaveOutcome)
    requires Inv(w, false) && Tidy(w) && Flushes(w.store) && id !in w.issued && !w.main.Stopped? && !save.Saved?
    ensures Tidy(Named(w, id).(store := w.store.(tracker := map[], disk := SaveSpec(w.store.disk, Batch(Some(id), w.store.tracker), save))))
  {
    var b := Batch(Some(id), w.store.tracker);
    var w' := Named(w, id).(store := w.store.(tracker := map[], disk := SaveSpec(w.store.disk, b, save)));
    forall c | Some(c) in w'.store.disk.afterCrash && c.id.Some?
      ensures c.id.value !in w.sent && OriginOf(w'.origin, Some(c)) <= w.held
      ensures w'.store.disk.slot.Some? ==> OriginOf(w'.origin, Some(c)) <= OriginOf(w'.origin, w'.store.disk.slot)
    {
      if c != b {
        assert Some(c) in w.store.disk.afterCrash && Known(w.issued, c);
      }
      assert w.store.disk.slot.Some? ==> Known(w.issued, w.store.disk.slot.value);
    }
  }

  lemma HandTidy(w: World, th: Thread)
    requires Inv(w, false) && Tidy(w) && InPhase(w, th, Ready)
    ensures Tidy(HandStep(w, th))
  {
    var b := BatchOf(w, th);
    assert Covers(w.store.pending, w.ledger, b);
    assert HandStep(w, th).main.Stopped? <==> w.main.Stopped?;
  }

  /** An acknowledgement leaves the pending batch with at most its own record, or nothing at all. */
  lemma AcknowledgedRecords(w: World, th: Thread, clear: ClearOutcome)
    requires Records(w.store, w.issued) && FlightOf(w, th).Some? && !th.Orphan?
    ensures var s := AcknowledgedStore(w, th, clear).store;
            && (s.pending == w.store.pending || (s.pending.None? && s.disk == EMPTY_DISK))
            && (w.store.pending.None? ==> s == w.store)
            && (forall b :: Some(b) in s.disk.afterCrash ==> Some(b) in w.store.disk.afterCrash)
  {
  }

  lemma AcknowledgeTidy(w: World, th: Thread, clear: ClearOutcome)
    requires Placed(w) && Tidy(w) && InPhase(w, th, Accepted)
    ensures Tidy(AcknowledgeStep(w, th, clear))
  {
    AcknowledgedRecords(w, th, clear);
  }

  lemma AnswerTidy(w: World, th: Thread, ok: bool)
    requires Inv(w, false) && Tidy(w) && InPhase(w, th, Waiting)
    ensures Tidy(AnswerStep(w, th, ok))
  {
    assert FlightKnown(FlightOf(w, th).value, w.issued, w.sent, w.ledger);
  }

  lemma StartTidy(w: World, id: BatchId, save: SaveOutcome)
    requires Inv(w, false) && Tidy(w) && Enabled(w, StartAsync(id, save))
    ensures Tidy(StartAsyncStep(w, id, save))
  {
    IssueTidy(w, id, save);
  }

  lemma NextTidy(w: World, id: BatchId, save: SaveOutcome)
    requires Inv(w, false) && Tidy(w) && Enabled(w, NextSync(id, save))
    ensures Tidy(NextSyncStep(w, id, save))
  {
    IssueTidy(w, id, save);
  }

  lemma StepTidy(w: World, a: Action)
    requires Inv(w, false) && Tidy(w) && Enabled(w, a) && !EndsService(a)
    ensures Tidy(Step(w, a))
  {
    match a
    case Tick(delta) => assert Tidy(TickStep(w, delta));
    case StartAsync(id, save) => StartTidy(w, id, save);
    case StartShutdown => assert Tidy(ShutdownStep(w));
    case NextSync(id, save) => NextTidy(w, id, save);
    case Hand(th) => HandTidy(w, th);
    case Commit(id) => assert Tidy(w.(ledger := w.ledger + [id]));
    case Answer(th, ok) => AnswerTidy(w, th, ok);
    case Acknowledge(th, clear) => AcknowledgeTidy(w, th, clear);
    case Crash(left) => assert Tidy(CrashStep(w, left));
  }

  lemma {:induction false} RunTidy(w: World, actions: seq<Action>, w': World)
    requires Inv(w, false) && Tidy(w) && Reaches(w, actions, w') && NoKill(actions)
    ensures Inv(w', false) && Tidy(w')
    decreases |actions|
  {
    if actions != [] {
      StepInv(w, false, actions[0]);
      StepTidy(w, actions[0]);
      RunTidy(Step(w, actions[0]), actions[1..], w');
    }
  }

  lemma TidyRun(durable: bool, actions: seq<Action>, w: World)
    requires Reaches(Init(durable), actions, w) && NoKill(actions)
    ensures Inv(w, false) && Tidy(w)
  {
    InitInv(durable);
    RunTidy(Init(durable), actions, w);
  }

  /** What else a crash might bring back was never handed to the sink, and shares no tick with anything that was. */
  lemma LeftoversNeverSent(durable: bool, actions: seq<Action>, w: World, b: Batch, i: BatchId)
    requires Reaches(Init(durable), actions, w) && NoKill(actions)
    requires Some(b) in w.store.disk.afterCrash && Some(b) != w.store.pending && i in w.sent
    ensures i in w.issued && b != w.issued[i]
    ensures OriginOf(w.origin, Some(b)) !! OriginOf(w.origin, Some(w.issued[i]))
  {
    TidyRun(durable, actions, w);
    assert Known(w.issued, b) && i in Live(w);
  }

  /** In such runs `KillSafe` can be read off the disk: nothing, or only the slot itself, can come back. */
  lemma KillSafeOnDisk(durable: bool, actions: seq<Action>, w: World)
    requires Reaches(Init(durable), actions, w) && NoKill(actions)
    ensures KillSafe(w) <==> w.store.disk.slot.None? || w.store.disk.afterCrash <= {None, w.store.disk.slot}
  {
    TidyRun(durable, actions, w);
    TidyKillSafe(w);
  }

  lemma TidyKillSafe(w: World)
    requires Inv(w, false) && Tidy(w)
    ensures KillSafe(w) <==> w.store.disk.slot.None? || w.store.disk.afterCrash <= {None, w.store.disk.slot}
  {
    var d := w.store.disk;
    if KillSafe(w) && d.slot.Some? {
      forall x | x in d.afterCrash
        ensures x == None || x == d.slot
      {
        if x.Some? && x != d.slot {
          Overlap(w, x.value);
          assert false;
        }
      }
    }
  }

  lemma Overlap(w: World, b: Batch)
    requires Inv(w, false) && Tidy(w)
    requires w.store.disk.slot.Some? && Some(b) in w.store.disk.afterCrash && Some(b) != w.store.disk.slot
    ensures !(OriginOf(w.origin, Some(b)) !! OriginOf(w.origin, w.store.disk.slot))
  {
    assert Known(w.issued, b) && b.id.value in w.origin;
    ghost var _ := SomeMember(w.origin[b.id.value]);
    var t :| t in w.origin[b.id.value];
    assert t in OriginOf(w.origin, w.store.disk.slot);
  }
}
