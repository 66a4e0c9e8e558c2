/**
 The controller's own calls, made with nothing else running, are runs of the
 settlement protocol: the same store afterwards, and the same batches handed to
 the sink in the same order. What the shutdown push comes to is then spelled out
 for each way in which its calls may end.
 */
module PushRefines {
  import opened Wrappers
  import opened Traffic
  import opened Spool
  import opened Reporting
  import opened Settlement

  /** The batches handed to the sink along a run, in order. */
  ghost function Handed(w: World, actions: seq<Action>): seq<Batch>
    decreases |actions|
  {
    if actions == [] || !Enabled(w, actions[0]) then []
    else (if actions[0].Hand? then [BatchOf(w, actions[0].th)] else []) + Handed(Step(w, actions[0]), actions[1..])
  }

  lemma {:induction false} Join(w: World, one: seq<Action>, mid: World, two: seq<Action>, to: World)
    requires Reaches(w, one, mid) && Reaches(mid, two, to)
    ensures Reaches(w, one + two, to)
    ensures Handed(w, one + two) == Handed(w, one) + Handed(mid, two)
    decreases |one|
  {
    if one == [] {
      assert one + two == two;
    } else {
      assert (one + two)[1..] == one[1..] + two;
      Join(Step(w, one[0]), one[1..], mid, two, to);
    }
  }

  lemma Single(w: World, a: Action)
    requires Enabled(w, a)
    ensures Reaches(w, [a], Step(w, a))
    ensures Handed(w, [a]) == if a.Hand? then [BatchOf(w, a.th)] else []
  {
    assert [a][1..] == [];
    assert Reaches(Step(w, a), [], Step(w, a));
  }

  lemma Extend(w: World, actions: seq<Action>, mid: World, a: Action)
    requires Reaches(w, actions, mid) && Enabled(mid, a)
    ensures Reaches(w, actions + [a], Step(mid, a))
    ensures Handed(w, actions + [a]) == Handed(w, actions) + if a.Hand? then [BatchOf(mid, a.th)] else []
  {
    Single(mid, a);
    Join(w, actions, mid, [a], Step(mid, a));
  }

  /** The panel settles the batch before it answers, unless it has done so already. */
  function Settling(b: Batch, ledger: seq<BatchId>): seq<Action> {
    if Answerable(b, ledger) then [] else [Commit(b.id.value)]
  }

  /** The end of a delivery that reaches the panel. */
  function Success(b: Batch, ledger: seq<BatchId>, th: Thread, clear: ClearOutcome): seq<Action> {
    Settling(b, ledger) + [Answer(th, true), Acknowledge(th, clear)]
  }

  lemma Settle(w: World, th: Thread) returns (to: World)
    requires InPhase(w, th, Waiting)
    requires BatchOf(w, th).id.Some? ==> BatchOf(w, th).id.value in w.sent
    ensures Reaches(w, Settling(BatchOf(w, th), w.ledger), to) && Handed(w, Settling(BatchOf(w, th), w.ledger)) == []
    ensures to == w.(ledger := to.ledger) && Answerable(BatchOf(w, th), to.ledger)
  {
    var b := BatchOf(w, th);
    if Answerable(b, w.ledger) {
      assert Reaches(w, [], w);
      return w;
    }
    Single(w, Commit(b.id.value));
    to := Step(w, Commit(b.id.value));
  }

  lemma Acknowledges(w: World, th: Thread, clear: ClearOutcome)
    requires InPhase(w, th, Waiting) && !th.Orphan? && Answerable(BatchOf(w, th), w.ledger)
    ensures Enabled(w, Answer(th, true))
    ensures var mid := Step(w, Answer(th, true));
            && Enabled(mid, Acknowledge(th, clear))
            && (var r := AcknowledgeSpec(w.store, BatchOf(w, th), clear);
                Step(mid, Acknowledge(th, clear)) == EndFlight(w, th, r.ok).(store := r.store))
  {
  }

  lemma Succeeds(w: World, th: Thread, clear: ClearOutcome) returns (to: World)
    requires InPhase(w, th, Waiting) && !th.Orphan?
    requires BatchOf(w, th).id.Some? ==> BatchOf(w, th).id.value in w.sent
    ensures Reaches(w, Success(BatchOf(w, th), w.ledger, th, clear), to)
    ensures Handed(w, Success(BatchOf(w, th), w.ledger, th, clear)) == []
    ensures var r := AcknowledgeSpec(w.store, BatchOf(w, th), clear);
            to == EndFlight(w, th, r.ok).(store := r.store, ledger := to.ledger)
  {
    var b := BatchOf(w, th);
    var mid := Settle(w, th);
    Acknowledges(mid, th, clear);
    var answered := Step(mid, Answer(th, true));
    to := Step(answered, Acknowledge(th, clear));
    Single(mid, Answer(th, true));
    Extend(mid, [Answer(th, true)], answered, Acknowledge(th, clear));
    assert [Answer(th, true)] + [Acknowledge(th, clear)] == [Answer(th, true), Acknowledge(th, clear)];
    Join(w, Settling(b, w.ledger), mid, [Answer(th, true), Acknowledge(th, clear)], to);
  }

  /** One round of the shutdown push, as the steps of the protocol. */
  function Round(w: World, e: Delivery): seq<Action>
    requires w.main.Next? && e.id !in w.issued
  {
    var next := Step(w, NextSync(e.id, e.save));
    if next.main.Stopped? then [NextSync(e.id, e.save)]
    else
      [NextSync(e.id, e.save), Hand(Sync)]
      + if e.answered then Success(BatchOf(next, Sync), w.ledger, Sync, e.clear) else [Answer(Sync, false)]
  }

  /** The first two steps of a round. */
  lemma RoundStarts(w: World, e: Delivery) returns (to: World)
    requires w.main.Next? && e.id !in w.issued && NextBatchSpec(w.store, e.id, e.save).ok
    ensures Enabled(w, NextSync(e.id, e.save)) && Step(w, NextSync(e.id, e.save)).main.Pushing?
    ensures Reaches(w, [NextSync(e.id, e.save), Hand(Sync)], to)
    ensures var p := NextBatchSpec(w.store, e.id, e.save);
            && to.main == Pushing(Flight(p.batch, Waiting), w.main.second, w.main.hadPending)
            && BatchOf(Step(w, NextSync(e.id, e.save)), Sync) == p.batch
            && Handed(w, [NextSync(e.id, e.save), Hand(Sync)]) == [p.batch]
            && to.store == p.store
            && to.sent == w.sent + IdOf(Some(p.batch))
    ensures to.issued.Keys <= w.issued.Keys + {e.id}
    ensures to.async == w.async && to.log == w.log && to.ledger == w.ledger
  {
    var a0 := NextSync(e.id, e.save);
    var next := Step(w, a0);
    Single(w, a0);
    Extend(w, [a0], next, Hand(Sync));
    to := Step(next, Hand(Sync));
    assert [a0] + [Hand(Sync)] == [a0, Hand(Sync)];
  }

  lemma RoundRefines(w: World, e: Delivery) returns (to: World)
    requires w.main.Next? && e.id !in w.issued
    ensures Reaches(w, Round(w, e), to)
    ensures to.store == DeliverSpec(w.store, e).store
    ensures Handed(w, Round(w, e)) == DeliverSpec(w.store, e).sent
    ensures to.main ==
            if DeliverSpec(w.store, e).ok && !w.main.second && w.main.hadPending then Next(true, true) else Stopped
    ensures to.issued.Keys <= w.issued.Keys + {e.id}
    ensures to.async == w.async && to.log == w.log
  {
    var a0 := NextSync(e.id, e.save);
    if !NextBatchSpec(w.store, e.id, e.save).ok {
      Single(w, a0);
      return Step(w, a0);
    }
    var mid := RoundStarts(w, e);
    if e.answered {
      to := Succeeds(mid, Sync, e.clear);
      Join(w, [a0, Hand(Sync)], mid, Success(BatchOf(mid, Sync), w.ledger, Sync, e.clear), to);
    } else {
      Extend(w, [a0, Hand(Sync)], mid, Answer(Sync, false));
      to := Step(mid, Answer(Sync, false));
    }
  }

  /**
   The shutdown push is a run of the protocol from the shutdown to the end of the
   service, of one or two rounds: it leaves the store of that run and has handed
   over its batches.
   */
  lemma PushSyncRefines(w: World, first: Delivery, second: Delivery) returns (actions: seq<Action>, to: World)
    requires w.main.Serving?
    requires first.id !in w.issued && second.id !in w.issued && first.id != second.id
    ensures Reaches(w, actions, to) && to.main.Stopped?
    ensures to.store == PushSyncSpec(w.store, first, second).store
    ensures Handed(w, actions) == PushSyncSpec(w.store, first, second).sent
    ensures var next := Step(w, StartShutdown);
            var one := Round(next, first);
            if w.store.pending.Some? && DeliverSpec(w.store, first).ok
            then exists mid: World ::
                   && Reaches(next, one, mid) && mid.main == Next(true, true) && second.id !in mid.issued
                   && actions == [StartShutdown] + one + Round(mid, second)
            else actions == [StartShutdown] + one
    ensures to.async == w.async && to.log == w.log
  {
    var next := Step(w, StartShutdown);
    Single(w, StartShutdown);
    var mid := RoundRefines(next, first);
    actions := [StartShutdown] + Round(next, first);
    to := mid;
    Join(w, [StartShutdown], next, Round(next, first), to);
    if mid.main.Next? {
      to := RoundRefines(mid, second);
      Join(w, actions, mid, Round(mid, second), to);
      actions := actions + Round(mid, second);
    }
  }

  // ----- what the shutdown push comes to -----

  predicate Works(e: Delivery) {
    e.save.Saved? && e.answered && e.clear.Cleared?
  }

  /** With everything working, the batch in doubt goes first, then the tracker's counters, and nothing is left. */
  lemma PushSyncSendsAll(s: Store, first: Delivery, second: Delivery)
    requires s.pending.Some? ==> s.pending.value.id.Some?
    requires Works(first) && Works(second)
    ensures var r := PushSyncSpec(s, first, second);
            && r.ok && r.store.pending == None && r.store.tracker == map[]
            && r.sent ==
               if s.pending.None? && s.tracker == map[] then [Batch(None, map[])]
               else if s.pending.None? then [Batch(Some(first.id), s.tracker)]
               else if s.tracker == map[] then [s.pending.value, Batch(None, map[])]
               else [s.pending.value, Batch(Some(second.id), s.tracker)]
  {
  }

  /** The first call that fails ends the push; what has been handed over, or taken under an ID, stays pending. */
  lemma PushSyncStops(s: Store, first: Delivery, second: Delivery)
    requires s.pending.Some? ==> s.pending.value.id.Some?
    ensures var r := PushSyncSpec(s, first, second);
            && (s.pending.Some? && !first.answered ==> r == Pushed(s, [s.pending.value], false))
            && (s.pending.Some? && s.durable && first.answered && !first.clear.Cleared? ==>
                  !r.ok && r.sent == [s.pending.value] && r.store.pending == s.pending && r.store.tracker == s.tracker)
            && (s.pending.None? && s.tracker != map[] && s.durable && !first.save.Saved? ==>
                  !r.ok && r.sent == [] && r.store.pending == None && r.store.tracker == map[])
            && (s.pending.None? && s.tracker != map[] && !first.answered && (s.durable ==> first.save.Saved?) ==>
                  (var b := Batch(Some(first.id), s.tracker);
                   !r.ok && r.sent == [b] && r.store.pending == Some(b) && r.store.tracker == map[]))
            && (s.pending.Some? && Works(first) && s.tracker != map[] && second.save.Saved? && !second.answered ==>
                  (var b := Batch(Some(second.id), s.tracker);
                   !r.ok && r.sent == [s.pending.value, b] && r.store.pending == Some(b) && r.store.tracker == map[]))
  {
  }

  // ----- the end of an asynchronous push -----

  /** The end of a delivery is the panel's answer and, after success, the acknowledgement. */
  lemma FinishAsyncRefines(w: World, answered: bool, clear: ClearOutcome) returns (actions: seq<Action>, to: World)
    requires InPhase(w, Async, Waiting)
    requires BatchOf(w, Async).id.Some? ==> BatchOf(w, Async).id.value in w.sent
    ensures Reaches(w, actions, to) && to.async.None?
    ensures to.store == FinishAsyncSpec(w.store, BatchOf(w, Async), answered, clear).store
    ensures actions ==
            if answered then Success(BatchOf(w, Async), w.ledger, Async, clear) else [Answer(Async, false)]
    ensures to == w.(store := to.store, async := None, ledger := to.ledger)
  {
    var b := BatchOf(w, Async);
    if answered {
      to := Succeeds(w, Async, clear);
      actions := Success(b, w.ledger, Async, clear);
    } else {
      Single(w, Answer(Async, false));
      to := Step(w, Answer(Async, false));
      actions := [Answer(Async, false)];
    }
  }

  /** An answered delivery settles the books of the pending batch; a failed one leaves them as they were. */
  lemma FinishAsyncOutcome(s: Store, b: Batch, answered: bool, clear: ClearOutcome)
    requires s.pending == Some(b) && b.id.Some?
    ensures var r := FinishAsyncSpec(s, b, answered, clear);
            && r.store.tracker == s.tracker
            && (r.ok <==> answered && (s.durable ==> clear.Cleared?))
            && r.store.pending == (if r.ok then None else Some(b))
            && (!answered ==> r.store == s)
            && (r.ok && s.durable ==> r.store.disk == Disk(None, {None}))
  {
  }
}
