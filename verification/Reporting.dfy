/** Report delivery: the controller that spools a batch before sending it and clears it once acknowledged. */
module Reporting {
  import opened Wrappers
  import opened Traffic
  import opened Spool
  import T = Tracker
  import B = Backoff

  /** The tracker's buffer, the controller's pending batch and the disk, as values. */
  datatype Store = Store(durable: bool, tracker: TrafficMap, pending: Option<Batch>, disk: Disk)

  datatype Prepared = Prepared(store: Store, batch: Batch, ok: bool)

  /**
   Choose the batch to send. An unacknowledged one is sent again unchanged;
   otherwise the tracker is flushed under the fresh ID `id`, and the batch
   becomes pending only if it is safely in the spool.
   */
  function NextBatchSpec(s: Store, id: BatchId, io: SaveOutcome): (p: Prepared)
    ensures p.store.durable == s.durable
  {
    if s.pending.Some? then Prepared(s, s.pending.value, true)
    else if s.tracker == map[] then Prepared(s, Batch(None, map[]), true)
    else
      var b := Batch(Some(id), s.tracker);
      var flushed := s.(tracker := map[]);
      if !s.durable then Prepared(flushed.(pending := Some(b)), b, true)
      else if io.Saved? then Prepared(flushed.(pending := Some(b), disk := SaveSpec(s.disk, b, io)), b, true)
      else Prepared(flushed.(disk := SaveSpec(s.disk, b, io)), b.(id := None), false)
  }

  datatype Acknowledged = Acknowledged(store: Store, ok: bool)

  predicate IsPending(s: Store, b: Batch) {
    b.id.Some? && s.pending.Some? && s.pending.value.id == b.id
  }

  function AcknowledgeSpec(s: Store, b: Batch, io: ClearOutcome): (r: Acknowledged)
    ensures r.store.durable == s.durable
  {
    if !IsPending(s, b) then Acknowledged(s, true)
    else if !s.durable then Acknowledged(s.(pending := None), true)
    else if io.Cleared? then Acknowledged(s.(pending := None, disk := ClearSpec(s.disk, io)), true)
    else Acknowledged(s.(disk := ClearSpec(s.disk, io)), false)
  }

  /** The asynchronous push gives an undelivered flush back to the tracker. */
  function StartAsyncSpec(s: Store, id: BatchId, io: SaveOutcome): (p: Prepared)
    ensures p.store.durable == s.durable
  {
    var p := NextBatchSpec(s, id, io);
    if p.ok then p else p.(store := p.store.(tracker := Plus(p.store.tracker, p.batch.traffic)))
  }

  /** After a failed delivery an identified batch stays pending; only untagged traffic is given back. */
  function FinishAsyncSpec(s: Store, b: Batch, answered: bool, io: ClearOutcome): (r: Acknowledged)
    ensures r.store.durable == s.durable
  {
    if answered then AcknowledgeSpec(s, b, io)
    else if b.id == None && b.traffic != map[] then Acknowledged(s.(tracker := Plus(s.tracker, b.traffic)), false)
    else Acknowledged(s, false)
  }

  /** What the environment answers during one delivery of the shutdown push. */
  datatype Delivery = Delivery(id: BatchId, save: SaveOutcome, answered: bool, clear: ClearOutcome)

  datatype Pushed = Pushed(store: Store, sent: seq<Batch>, ok: bool)

  function DeliverSpec(s: Store, e: Delivery): Pushed {
    var p := NextBatchSpec(s, e.id, e.save);
    if !p.ok then Pushed(p.store, [], false)
    else if !e.answered then Pushed(p.store, [p.batch], false)
    else
      var a := AcknowledgeSpec(p.store, p.batch, e.clear);
      Pushed(a.store, [p.batch], a.ok)
  }

  /** First the batch in doubt, if there is one, and only then the new counters. */
  function PushSyncSpec(s: Store, first: Delivery, second: Delivery): Pushed {
    var one := DeliverSpec(s, first);
    if !one.ok || s.pending.None? then one
    else
      var two := DeliverSpec(one.store, second);
      Pushed(two.store, one.sent + two.sent, two.ok)
  }

  class Controller {
    const spool: BatchSpool?
    const backoff: B.Backoff
    var pending: Option<Batch>
    var active: bool

    ghost function View(t: T.Tracker): Store
      reads this, t, spool
    {
      Store(spool != null, t.pendingTraffic, pending, if spool == null then EMPTY_DISK else spool.Contents())
    }

    ghost function Gate(): B.Gate
      reads this, backoff
    {
      B.Gate(active, backoff.skipRemaining)
    }

    /** New: acknowledgements live in memory only. */
    constructor InMemory()
      ensures spool == null && pending == None && Gate() == B.OPEN && fresh(backoff)
    {
      spool := null;
      backoff := new B.Backoff();
      pending := None;
      active := false;
    }

    /** NewDurable, once the spool has been opened and `loaded` was found in it. */
    constructor Durable(spool: BatchSpool, loaded: Option<Batch>)
      ensures this.spool == spool && pending == loaded && Gate() == B.OPEN && fresh(backoff)
    {
      this.spool := spool;
      backoff := new B.Backoff();
      pending := loaded;
      active := false;
    }

    method NextBatch(t: T.Tracker, id: BatchId, io: SaveOutcome) returns (batch: Batch, ok: bool)
      modifies this`pending, t, spool
      ensures t.lastSeen == old(t.lastSeen)
      ensures Prepared(View(t), batch, ok) == NextBatchSpec(old(View(t)), id, io)
    {
      if pending.Some? {
        return pending.value, true;
      }
      var traffic := t.FlushTraffic();
      batch := Batch(None, traffic);
      if traffic != map[] {
        batch := batch.(id := Some(id));
        if spool != null {
          var saved := spool.Save(batch, io);
          if !saved {
            return batch.(id := None), false;
          }
        }
        pending := Some(batch);
      }
      return batch, true;
    }

    method Acknowledge(t: T.Tracker, batch: Batch, io: ClearOutcome) returns (ok: bool)
      modifies this`pending, spool
      ensures Acknowledged(View(t), ok) == AcknowledgeSpec(old(View(t)), batch, io)
    {
      if batch.id == None {
        return true;
      }
      if pending.Some? && pending.value.id == batch.id {
        if spool != null {
          var cleared := spool.Clear(io);
          if !cleared {
            return false;
          }
        }
        pending := None;
      }
      return true;
    }

    /**
     PushAsync up to the start of the delivery. Skipped and overlapping pushes
     leave the tracker alone.
     */
    method PushAsync(t: T.Tracker, id: BatchId, io: SaveOutcome) returns (started: bool, batch: Batch)
      modifies this`pending, this`active, t, spool, backoff
      ensures t.lastSeen == old(t.lastSeen)
      ensures !B.Starts(old(Gate()), B.Tick) ==>
                !started && View(t) == old(View(t)) && Gate() == B.Step(old(Gate()), B.Tick)
      ensures B.Starts(old(Gate()), B.Tick) ==>
                && Prepared(View(t), batch, started) == StartAsyncSpec(old(View(t)), id, io)
                && (var tried := B.Step(old(Gate()), B.Tick);
                    Gate() == if started then tried else B.Step(tried, B.Finished(false)))
    {
      batch := Batch(None, map[]);
      if active {
        return false, batch;
      }
      active := true;
      var skip := backoff.ShouldSkip();
      if skip {
        active := false;
        return false, batch;
      }
      var ok;
      batch, ok := NextBatch(t, id, io);
      if !ok {
        backoff.OnFailure();
        active := false;
        t.RestoreTraffic(batch.traffic);
        return false, batch;
      }
      return true, batch;
    }

    /** The goroutine of PushAsync once the sink has answered; identified traffic is never restored. */
    method FinishAsync(t: T.Tracker, batch: Batch, answered: bool, io: ClearOutcome) returns (ok: bool)
      requires active
      modifies this`pending, this`active, t, spool, backoff
      ensures t.lastSeen == old(t.lastSeen)
      ensures Gate() == B.Step(old(Gate()), B.Finished(ok))
      ensures Acknowledged(View(t), ok) == FinishAsyncSpec(old(View(t)), batch, answered, io)
    {
      if !answered {
        backoff.OnFailure();
        var notice := batch;
        if batch.id != None {
          notice := batch.(traffic := map[]);
        }
        if notice.traffic != map[] {
          t.RestoreTraffic(notice.traffic);
        }
        active := false;
        return false;
      }
      ok := Acknowledge(t, batch, io);
      if ok {
        backoff.OnSuccess();
      } else {
        backoff.OnFailure();
      }
      active := false;
    }

    method Deliver(t: T.Tracker, e: Delivery) returns (sent: seq<Batch>, ok: bool)
      modifies this`pending, t, spool
      ensures t.lastSeen == old(t.lastSeen)
      ensures Pushed(View(t), sent, ok) == DeliverSpec(old(View(t)), e)
    {
      var batch;
      batch, ok := NextBatch(t, e.id, e.save);
      if !ok {
        return [], false;
      }
      if !e.answered {
        return [batch], false;
      }
      ok := Acknowledge(t, batch, e.clear);
      return [batch], ok;
    }

    /** The shutdown flush, with nothing else running; the protocol in `Settlement` interleaves it. */
    method PushSync(t: T.Tracker, first: Delivery, second: Delivery) returns (sent: seq<Batch>, ok: bool)
      modifies this`pending, t, spool
      ensures t.lastSeen == old(t.lastSeen)
      ensures Pushed(View(t), sent, ok) == PushSyncSpec(old(View(t)), first, second)
    {
      var hadPending := pending.Some?;
      sent, ok := Deliver(t, first);
      if !ok {
        return;
      }
      if hadPending {
        var more;
        more, ok := Deliver(t, second);
        sent := sent + more;
      }
    }
  }
}
