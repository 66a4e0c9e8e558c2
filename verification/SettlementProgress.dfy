/** Nothing stands in the way of settling what is left: a save, a delivery, an answer and a clear that work are enough. */
module SettlementProgress {
  import opened Wrappers
  import opened Traffic
  import opened Spool
  import opened Reporting
  import opened Settlement
  import opened SettlementProof
  import opened SettlementResults
  import opened SettlementRestarts

  /** A step of the serving controller's own delivery in which everything works. */
  predicate Works(a: Action) {
    match a
    case StartAsync(_, save) => save == Saved
    case Hand(th) => th == Async
    case Commit(_) => true
    case Answer(th, ok) => th == Async && ok
    case Acknowledge(th, clear) => th == Async && clear == Cleared
    case _ => false
  }

  predicate AllWork(actions: seq<Action>) {
    forall i :: 0 <= i < |actions| ==> Works(actions[i])
  }

  /** Such steps lose nothing, and neither end nor stop anything. */
  ghost predicate WorksTo(w: World, actions: seq<Action>, w': World) {
    && Reaches(w, actions, w') && AllWork(actions)
    && Inv(w', false) && w'.main.Serving?
    && w'.log == w.log && w.ledger <= w'.ledger
    && forall t :: Gone(w', t) ==> Gone(w, t)
  }

  lemma Nowhere(w: World)
    requires Inv(w, false) && w.main.Serving?
    ensures WorksTo(w, [], w)
  {
  }

  lemma OneWorks(w: World, a: Action)
    requires Inv(w, false) && w.main.Serving? && Enabled(w, a) && Works(a)
    ensures WorksTo(w, [a], Step(w, a))
  {
    var w' := Step(w, a);
    StepInv(w, false, a);
    OneStep(w, a);
    LedgerStep(w, a);
    WorksServes(w, a);
    WorksKeeps(w, a);
  }

  lemma WorksKeeps(w: World, a: Action)
    requires Inv(w, false) && Enabled(w, a) && Works(a)
    ensures forall t :: Gone(Step(w, a), t) ==> Gone(w, t)
  {
    forall t | Gone(Step(w, a), t)
      ensures Gone(w, t)
    {
      OnlyTheseDrop(w, a, t);
    }
  }

  lemma WorksServes(w: World, a: Action)
    requires w.main.Serving? && Enabled(w, a) && Works(a)
    ensures Step(w, a).main.Serving? && Step(w, a).log == w.log
  {
  }

  lemma Further(w: World, xs: seq<Action>, v: World, ys: seq<Action>, u: World)
    requires WorksTo(w, xs, v) && WorksTo(v, ys, u)
    ensures WorksTo(w, xs + ys, u)
  {
    ReachesJoin(w, xs, v, ys, u);
  }

  lemma AndThen(w: World, xs: seq<Action>, v: World, a: Action)
    requires WorksTo(w, xs, v) && Enabled(v, a) && Works(a)
    ensures WorksTo(w, xs + [a], Step(v, a))
  {
    OneWorks(v, a);
    Further(w, xs, v, [a], Step(v, a));
  }

  // ----- one delivery -----

  /** What is on its way gets through; a pending batch is then settled and forgotten. */
  ghost predicate Landed(w: World, w': World) {
    && w'.async.None?
    && w'.store.tracker == w.store.tracker && w'.held == w.held && w'.issued == w.issued
    && w'.store.pending == if w.async.Some? && IsPending(w.store, w.async.value.batch) then None else w.store.pending
  }

  lemma FromAccepted(w: World) returns (actions: seq<Action>, w': World)
    requires Inv(w, false) && w.main.Serving? && InPhase(w, Async, Accepted)
    ensures WorksTo(w, actions, w') && Landed(w, w')
  {
    var a := Acknowledge(Async, Cleared);
    OneWorks(w, a);
    actions, w' := [a], Step(w, a);
    assert w' == AcknowledgeStep(w, Async, Cleared);
  }

  lemma FromWaiting(w: World) returns (actions: seq<Action>, w': World)
    requires Inv(w, false) && w.main.Serving? && InPhase(w, Async, Waiting)
    ensures WorksTo(w, actions, w') && Landed(w, w')
  {
    var b := BatchOf(w, Async);
    assert FlightKnown(w.async.value, w.issued, w.sent, w.ledger) by {
      assert FlightOf(w, Async) == w.async;
    }
    var v := w;
    Nowhere(w);
    actions := [];
    if !Answerable(b, w.ledger) {
      AndThen(w, actions, v, Commit(b.id.value));
      v := w.(ledger := w.ledger + [b.id.value]);
      actions := actions + [Commit(b.id.value)];
      assert v.ledger[|w.ledger|] == b.id.value;
    }
    AndThen(w, actions, v, Answer(Async, true));
    actions := actions + [Answer(Async, true)];
    v := AnswerStep(v, Async, true);
    var rest;
    rest, w' := FromAccepted(v);
    Further(w, actions, v, rest, w');
    actions := actions + rest;
  }

  lemma FromReady(w: World) returns (actions: seq<Action>, w': World)
    requires Inv(w, false) && w.main.Serving? && InPhase(w, Async, Ready)
    ensures WorksTo(w, actions, w') && Landed(w, w')
  {
    OneWorks(w, Hand(Async));
    var v := HandStep(w, Async);
    var rest;
    rest, w' := FromWaiting(v);
    Further(w, [Hand(Async)], v, rest, w');
    actions := [Hand(Async)] + rest;
  }

  /** Whatever the delivery goroutine is doing, it can finish. */
  lemma FinishFlight(w: World) returns (actions: seq<Action>, w': World)
    requires Inv(w, false) && w.main.Serving?
    ensures WorksTo(w, actions, w') && Landed(w, w')
  {
    if w.async.None? {
      Nowhere(w);
      actions, w' := [], w;
    } else {
      match w.async.value.phase
      case Ready => actions, w' := FromReady(w);
      case Waiting => actions, w' := FromWaiting(w);
      case Accepted => actions, w' := FromAccepted(w);
    }
  }

  /** The next report: the pending batch, or else the tracker's traffic. */
  lemma NextReport(w: World) returns (actions: seq<Action>, w': World)
    requires Inv(w, false) && w.main.Serving? && w.async.None?
    ensures WorksTo(w, actions, w') && w'.async.None? && w'.store.pending.None?
    ensures w'.store.tracker == if w.store.pending.Some? then w.store.tracker else map[]
  {
    var id := FreshId(w.issued.Keys);
    var a := StartAsync(id, Saved);
    OneWorks(w, a);
    var v := StartAsyncStep(w, id, Saved);
    Chosen(w, id);
    var rest;
    rest, w' := FinishFlight(v);
    Further(w, [a], v, rest, w');
    actions := [a] + rest;
  }

  lemma Chosen(w: World, id: BatchId)
    requires Records(w.store, w.issued) && w.async.None?
    ensures var v := StartAsyncStep(w, id, Saved);
            && v.async.Some?
            && v.store.tracker == (if w.store.pending.Some? then w.store.tracker else map[])
            && (v.store.pending.Some? ==> IsPending(v.store, v.async.value.batch))
  {
  }

  /**
   From every state in which the service serves, finitely many working steps empty
   pending batch and tracker: the flight, the batch in doubt, the new counters. No
   tick is lost on the way, so whatever was not lost before is settled then, byte for byte.
   */
  lemma EverythingCanSettle(w: World) returns (actions: seq<Action>, w': World)
    requires Inv(w, false) && w.main.Serving?
    ensures Reaches(w, actions, w') && AllWork(actions) && w'.log == w.log
    ensures w'.async.None? && w'.store.pending.None? && w'.store.tracker == map[]
    ensures forall t: nat :: t < |w.log| ==> Gone(w, t) || t in SettledTicks(w') || t in w'.held
    ensures forall uid, d :: Share(w'.log, w'.held, uid, d) == 0
    ensures (forall t :: !Gone(w, t)) ==>
              forall uid, d :: SettledBytes(w', |w'.ledger|, uid, d) == CountedBytes(w.log, uid, d)
  {
    var first, v := FinishFlight(w);
    var second, u := NextReport(v);
    Further(w, first, v, second, u);
    actions, w' := first + second, u;
    if w'.store.tracker != map[] {
      var third, s := NextReport(w');
      Further(w, actions, w', third, s);
      actions, w' := actions + third, s;
    }
    Emptied(w, w');
  }

  lemma Emptied(w: World, w': World)
    requires Inv(w', false) && w'.log == w.log && w'.store.pending.None? && w'.store.tracker == map[]
    requires forall t :: Gone(w', t) ==> Gone(w, t)
    ensures forall t: nat :: t < |w.log| ==> Gone(w, t) || t in SettledTicks(w') || t in w'.held
    ensures forall uid, d :: Share(w'.log, w'.held, uid, d) == 0
    ensures (forall t :: !Gone(w, t)) ==>
              forall uid, d :: SettledBytes(w', |w'.ledger|, uid, d) == CountedBytes(w.log, uid, d)
  {
    forall t: nat | t < |w.log| && !Gone(w, t)
      ensures t in SettledTicks(w') || t in w'.held
    {
      assert !Gone(w', t);
    }
    forall uid, d
      ensures Share(w'.log, w'.held, uid, d) == 0
    {
      assert At(w'.store.tracker, uid, d) == 0;
    }
    if forall t :: !Gone(w, t) {
      forall uid, d
        ensures SettledBytes(w', |w'.ledger|, uid, d) == CountedBytes(w.log, uid, d)
      {
        NothingGoneIsExact(w', uid, d);
      }
    }
  }

  /** Over every gentle run with a spool: as long as the service serves, everything it has not lost can still be settled. */
  lemma GentleRunsCanSettle(before: seq<Action>, w: World) returns (actions: seq<Action>, w': World)
    requires Reaches(Init(true), before, w) && GentleRun(Init(true), before) && w.main.Serving?
    ensures Reaches(w, actions, w') && AllWork(actions) && w'.store.pending.None? && w'.store.tracker == map[]
    ensures forall t: nat :: t < |w.log| ==> Gone(w, t) || t in SettledTicks(w') || t in w'.held
    ensures forall uid, d :: Share(w'.log, w'.held, uid, d) == 0
  {
    GentleInv(before, w);
    actions, w' := EverythingCanSettle(w);
  }

  /** And in any state at all, shut down or not, a restart and a report settle the batch in doubt. */
  lemma DoubtCanSettle(w: World) returns (actions: seq<Action>, w': World)
    requires Inv(w, true) && w.store.durable && InDoubt(w)
    ensures Reaches(w, actions, w') && NoKill(actions) && Settled(w', w.store.pending.value)
  {
    var p := w.store.pending.value;
    StillThere(w);
    OneStep(w, Crash(Some(p)));
    var back := CrashStep(w, Some(p));
    var rest;
    rest, w' := SettlePending(back, p);
    ReachesJoin(w, [Crash(Some(p))], back, rest, w');
    actions := [Crash(Some(p))] + rest;
  }

  lemma StillThere(w: World)
    requires Inv(w, true) && w.store.durable && InDoubt(w)
    ensures Known(w.issued, w.store.pending.value) && w.store.pending in w.store.disk.afterCrash
  {
    InDoubtIsTrusted(w);
  }
}
