/** The audit reporter's event queue, on Go slices, with one batch in flight beside concurrent appends. */
module Audit {
  import opened GoSlice
  import F = AuditFifo

  const DEFAULT_BATCH_MAX := 50
  const DEFAULT_QUEUE_CAP := 5000
  const REPORT_ALL_BATCH_MAX := 200
  const REPORT_ALL_QUEUE_CAP := 50000
  const MAX_EVENTS_PER_BATCH := 500
  const MAX_NATIVE_EVENTS_PER_BATCH := 200
  const MAX_BATCHES_PER_FLUSH := 10

  datatype Event = Event(id: string, userID: int, target: string, targetIP: string, sourceIP: string, matched: bool)

  datatype Config = Config(reportAll: bool, batchMax: int, queueCap: int)

  /** Explicit sizes win; otherwise the mode decides. Then the panel's limit clamps the batch. */
  function ResolveSizes(cfg: Config, native: bool): (r: Config)
    ensures 1 <= r.batchMax <= (if native then 200 else 500) && 1 <= r.queueCap
    ensures 0 < cfg.queueCap ==> r.queueCap == cfg.queueCap
    ensures 0 < cfg.batchMax <= (if native then 200 else 500) ==> r.batchMax == cfg.batchMax
    ensures cfg.batchMax > r.batchMax ==> r.batchMax == if native then 200 else 500
    ensures cfg.batchMax <= 0 ==> r.batchMax == if cfg.reportAll then 200 else 50
    ensures cfg.queueCap <= 0 ==> r.queueCap == if cfg.reportAll then 50000 else 5000
    ensures r.reportAll == cfg.reportAll
  {
    var batchMax :=
      if cfg.batchMax > 0 then cfg.batchMax
      else if cfg.reportAll then REPORT_ALL_BATCH_MAX else DEFAULT_BATCH_MAX;
    var queueCap :=
      if cfg.queueCap > 0 then cfg.queueCap
      else if cfg.reportAll then REPORT_ALL_QUEUE_CAP else DEFAULT_QUEUE_CAP;
    var limit := if native then MAX_NATIVE_EVENTS_PER_BATCH else MAX_EVENTS_PER_BATCH;
    Config(cfg.reportAll, if batchMax > limit then limit else batchMax, queueCap)
  }

  /** The events that a list of acceptance numbers stands for. */
  function Pick(all: seq<Event>, numbers: seq<nat>): seq<Event>
    requires forall i :: 0 <= i < |numbers| ==> numbers[i] < |all|
  {
    seq(|numbers|, i requires 0 <= i < |numbers| => all[numbers[i]])
  }

  predicate Numbered(all: seq<Event>, numbers: seq<nat>) {
    forall i :: 0 <= i < |numbers| ==> numbers[i] < |all|
  }

  /** The slice holds the events with these numbers. */
  ghost predicate Holds(s: Slice<Event>, all: seq<Event>, numbers: seq<nat>)
    reads s.arr
  {
    InBounds(s) && Numbered(all, numbers) && Contents(s) == Pick(all, numbers)
  }

  lemma PickMore(all: seq<Event>, e: Event, numbers: seq<nat>)
    requires Numbered(all, numbers)
    ensures Numbered(all + [e], numbers) && Pick(all + [e], numbers) == Pick(all, numbers)
    ensures Numbered(all + [e], numbers + [|all|]) && Pick(all + [e], numbers + [|all|]) == Pick(all, numbers) + [e]
  {
  }

  lemma PickSplit(all: seq<Event>, numbers: seq<nat>, n: nat)
    requires Numbered(all, numbers) && n <= |numbers|
    ensures Numbered(all, numbers[..n]) && Pick(all, numbers[..n]) == Pick(all, numbers)[..n]
    ensures Numbered(all, numbers[n..]) && Pick(all, numbers[n..]) == Pick(all, numbers)[n..]
  {
  }

  lemma PickJoin(all: seq<Event>, a: seq<nat>, b: seq<nat>)
    requires Numbered(all, a) && Numbered(all, b)
    ensures Numbered(all, a + b) && Pick(all, a + b) == Pick(all, a) + Pick(all, b)
  {
  }

  /** An event reaching the reporter, and what its random source and allocator answer. */
  datatype Arrival = Arrival(event: Event, idOk: bool, spare: nat)

  /** One flush: whether its time is already up, what arrives meanwhile, and the panel's answer. */
  datatype Round = Round(late: bool, arrivals: seq<Arrival>, ok: bool, spare: nat)

  /** How many events the batches with a good outcome held. */
  function Delivered(sents: seq<seq<Event>>, oks: seq<bool>): nat
    requires |sents| == |oks|
  {
    if oks == [] then 0
    else
      var n := |oks| - 1;
      Delivered(sents[..n], oks[..n]) + if oks[n] then |sents[n]| else 0
  }

  lemma DeliveredMore(sents: seq<seq<Event>>, oks: seq<bool>, sent: seq<Event>, ok: bool)
    requires |sents| == |oks|
    ensures Delivered(sents + [sent], oks + [ok]) == Delivered(sents, oks) + if ok then |sent| else 0
  {
    assert (sents + [sent])[..|oks|] == sents && (oks + [ok])[..|oks|] == oks;
  }

  /** Every round so far was in time, had events to send, and was accepted. */
  predicate AllAccepted(rounds: seq<Round>, sents: seq<seq<Event>>, oks: seq<bool>) {
    && |sents| == |oks| <= |rounds|
    && forall k :: 0 <= k < |oks| ==> oks[k] && rounds[k].ok && sents[k] != [] && !rounds[k].late
  }

  /** Outcomes tell accepted batches; only the last round may be without one. */
  predicate Outcomes(rounds: seq<Round>, sents: seq<seq<Event>>, oks: seq<bool>) {
    && |sents| == |oks| <= |rounds|
    && (forall i :: 0 <= i < |oks| - 1 ==> oks[i])
    && (forall i :: 0 <= i < |oks| ==> (oks[i] <==> rounds[i].ok && sents[i] != []) && !rounds[i].late)
  }

  lemma OneMoreRound(rounds: seq<Round>, sents: seq<seq<Event>>, oks: seq<bool>, sent: seq<Event>, ok: bool)
    requires AllAccepted(rounds, sents, oks) && |oks| < |rounds| && !rounds[|oks|].late
    requires ok <==> rounds[|oks|].ok && sent != []
    ensures Outcomes(rounds, sents + [sent], oks + [ok])
    ensures ok ==> AllAccepted(rounds, sents + [sent], oks + [ok])
  {
  }

  class Reporter {
    const batchMax: nat
    const queueCap: nat
    const reportAll: bool

    var queue: Slice<Event>
    var batch: Slice<Event>  // the flusher's local variable while `sending`
    var sending: bool
    var dropped: nat
    var reported: nat
    var failed: nat

    ghost var all: seq<Event>        // every accepted event, in acceptance order
    ghost var trace: seq<F.Action>   // what happened so far

    ghost var fifo: F.Fifo           // where that leaves the abstract queue

    /** The abstract queue follows the trace, and the counters follow the abstract queue. */
    ghost predicate Tallied()
      reads this
    {
      && 1 <= batchMax && 1 <= queueCap
      && F.Follows(trace, fifo, queueCap)
      && fifo.accepted == |all|
      && dropped == |fifo.overflowed| + fifo.refused
      && reported == |fifo.delivered|
    }

    /** The queue and the batch in flight, as slices, are what the abstract queue says. */
    ghost predicate Valid()
      reads this, queue.arr, batch.arr
    {
      && Tallied()
      && Holds(queue, all, fifo.queued)
      && (if sending then
            && 0 < batch.len && Holds(batch, all, fifo.inflight)
            && (queue.arr != batch.arr || batch.off + batch.len <= queue.off)
          else fifo.inflight == [])
    }

    constructor (cfg: Config, native: bool)
      ensures Valid() && !sending && all == [] && trace == []
      ensures fresh(queue.arr) && fresh(batch.arr)
      ensures batchMax == ResolveSizes(cfg, native).batchMax && queueCap == ResolveSizes(cfg, native).queueCap
      ensures reportAll == cfg.reportAll && failed == 0
    {
      var sizes := ResolveSizes(cfg, native);
      batchMax, queueCap, reportAll := sizes.batchMax, sizes.queueCap, cfg.reportAll;
      var none := new Event[0];
      queue, batch, sending := Slice(none, 0, 0), Slice(none, 0, 0), false;
      dropped, reported, failed := 0, 0, 0;
      all, trace, fifo := [], [], F.EMPTY;
    }

    /** What one call does not even offer to the queue. */
    predicate Ignored(e: Event) {
      e.userID <= 0 || e.target == "" || (!e.matched && !reportAll)
    }

    method Enqueue(e: Event, spare: nat)
      requires Valid() && queue.len < queueCap
      modifies this`queue, this`all, this`trace, this`fifo, queue.arr
      ensures Valid()
      ensures sending ==> Contents(batch) == old(Contents(batch))
      ensures queue.arr == old(queue.arr) || fresh(queue.arr)
      ensures trace == old(trace) + [F.Accept] && all == old(all) + [e]
    {
      PickMore(all, e, fifo.queued);
      if sending {
        PickMore(all, e, fifo.inflight);
      }
      queue := AppendOne(queue, e, spare);
      all := all + [e];
      Advance(F.Accept);
    }

    /** The history goes on by one step. */
    ghost method Advance(a: F.Action)
      requires F.Follows(trace, fifo, queueCap) && F.Enabled(fifo, a, queueCap)
      modifies this`trace, this`fifo
      ensures F.Follows(trace, fifo, queueCap)
      ensures trace == old(trace) + [a] && fifo == F.Step(old(fifo), a, queueCap)
    {
      F.Extend(trace, a, queueCap);
      trace, fifo := trace + [a], F.Step(fifo, a, queueCap);
    }

    /** ObserveWithTargetIP with a normalised target; `idOk` says whether the random ID could be drawn. */
    method Observe(e: Event, idOk: bool, spare: nat)
      requires Valid()
      modifies this`queue, this`all, this`trace, this`fifo, this`dropped, queue.arr
      ensures Valid()
      ensures sending ==> Contents(batch) == old(Contents(batch))
      ensures queue.arr == old(queue.arr) || fresh(queue.arr)
      ensures e.userID <= 0 || e.target == "" || (!e.matched && !reportAll) ==>
                trace == old(trace) && all == old(all) && dropped == old(dropped) && queue == old(queue)
      ensures e.userID > 0 && e.target != "" && (e.matched || reportAll) ==>
                if old(queue.len) < queueCap && idOk
                then Contents(queue) == old(Contents(queue)) + [e] && dropped == old(dropped)
                else queue == old(queue) && dropped == old(dropped) + 1
      ensures if Ignored(e) then trace == old(trace) && all == old(all)
              else if |old(fifo).queued| < queueCap && idOk then
                trace == old(trace) + [F.Accept] && all == old(all) + [e]
              else trace == old(trace) + [F.Refuse] && all == old(all)
    {
      if e.userID <= 0 || e.target == "" {
        return;
      }
      if !e.matched && !reportAll {
        return;
      }
      if queue.len < queueCap {
        if !idOk {
          dropped := dropped + 1;
          Advance(F.Refuse);
          return;
        }
        Enqueue(e, spare);
        return;
      }
      dropped := dropped + 1;
      Advance(F.Refuse);
    }

    /** flushOnce up to the unlock: the head of the queue becomes the batch, without copying. */
    method BeginFlush() returns (some: bool)
      requires Valid() && !sending
      modifies this`queue, this`batch, this`sending, this`trace, this`fifo
      ensures Valid()
      ensures some == sending == (|old(fifo).queued| > 0)
      ensures queue.arr == old(queue.arr) && (some ==> batch.arr == old(queue.arr))
      ensures some ==> trace == old(trace) + [F.Take(if old(queue.len) > batchMax then batchMax else old(queue.len))]
      ensures !some ==> trace == old(trace)
      ensures some ==> batch.len == (if old(queue.len) > batchMax then batchMax else old(queue.len))
                       && Contents(batch) == old(Contents(queue))[..batch.len]
                       && fifo.inflight == old(fifo).queued[..batch.len]
                       && fifo.delivered == old(fifo).delivered
    {
      if queue.len == 0 {
        return false;
      }
      var head := queue;
      if head.len > batchMax {
        head := Take(head, batchMax);
      }
      SplitContents(queue, head.len);
      PickSplit(all, fifo.queued, head.len);
      batch, queue, sending := head, Drop(queue, head.len), true;
      Advance(F.Take(batch.len));
      return true;
    }

    /** r.queue = append(batch[gone:], r.queue...) */
    method PutBack(gone: nat, spare: nat)
      requires Valid() && sending && gone <= batch.len
      modifies this`queue, batch.arr
      ensures Holds(queue, all, fifo.inflight[gone..] + fifo.queued)
      ensures queue.arr == old(batch.arr) || fresh(queue.arr)
    {
      PickSplit(all, fifo.inflight, gone);
      PickJoin(all, fifo.inflight[gone..], fifo.queued);
      SplitContents(batch, gone);
      queue := Append(Drop(batch, gone), queue, spare);
    }

    /** A failed batch goes back to the head; what does not fit is dropped, oldest first, and counted. */
    method Requeue(spare: nat)
      requires Valid() && sending
      modifies this`queue, this`sending, this`trace, this`fifo, this`dropped, batch.arr
      ensures Valid() && !sending
      ensures queue.arr == old(queue.arr) || queue.arr == old(batch.arr) || fresh(queue.arr)
      ensures trace == old(trace) + [F.GiveBack] && fifo == F.Step(old(fifo), F.GiveBack, queueCap)
    {
      assert |fifo.inflight| == batch.len && |fifo.queued| == queue.len;
      var room := queueCap - queue.len;
      if room <= 0 {
        assert fifo.inflight[batch.len..] + fifo.queued == fifo.queued;
        CountDropped(batch.len);
        return;
      }
      var gone := if room >= batch.len then 0 else batch.len - room;
      PutBack(gone, spare);
      CountDropped(gone);
    }

    method CountDropped(gone: nat)
      requires Tallied() && gone == |fifo.inflight| - F.Kept(fifo, queueCap)
      requires Holds(queue, all, fifo.inflight[gone..] + fifo.queued)
      modifies this`sending, this`trace, this`fifo, this`dropped
      ensures Valid() && !sending
      ensures trace == old(trace) + [F.GiveBack] && fifo == F.Step(old(fifo), F.GiveBack, queueCap)
    {
      dropped, sending := dropped + gone, false;
      Advance(F.GiveBack);
    }

    /** flushOnce once the panel has answered; `sent` is what the sender read from the batch by then. */
    method EndFlush(ok: bool, spare: nat) returns (ghost sent: seq<Event>)
      requires Valid() && sending
      modifies this`queue, this`sending, this`trace, this`fifo, this`dropped, this`reported, this`failed, batch.arr
      ensures Valid() && !sending
      ensures sent == old(Contents(batch))
      ensures trace == old(trace) + [if ok then F.Deliver else F.GiveBack]
      ensures fifo == F.Step(old(fifo), if ok then F.Deliver else F.GiveBack, queueCap)
      ensures failed == if ok then old(failed) else old(failed) + 1
      ensures queue.arr == old(queue.arr) || queue.arr == old(batch.arr) || fresh(queue.arr)
      ensures fifo.delivered == old(fifo).delivered + if ok then old(fifo).inflight else []
    {
      sent := Contents(batch);
      if !ok {
        failed := failed + 1;
        Requeue(spare);
        return;
      }
      reported, sending := reported + batch.len, false;
      Advance(F.Deliver);
    }

    method Arrive(arrivals: seq<Arrival>)
      requires Valid()
      modifies this`queue, this`all, this`trace, this`fifo, this`dropped, queue.arr
      ensures Valid()
      ensures sending ==> Contents(batch) == old(Contents(batch))
      ensures queue.arr == old(queue.arr) || fresh(queue.arr)
      ensures sending ==> fifo.inflight == old(fifo).inflight
      ensures fifo.delivered == old(fifo).delivered
    {
      for i := 0 to |arrivals|
        invariant Valid()
        invariant sending ==> Contents(batch) == old(Contents(batch))
        invariant queue.arr == old(queue.arr) || fresh(queue.arr)
        invariant sending ==> fifo.inflight == old(fifo).inflight
        invariant fifo.delivered == old(fifo).delivered
      {
        Observe(arrivals[i].event, arrivals[i].idOk, arrivals[i].spare);
      }
    }

    /**
     flushOnce with everything that arrives while the request is on its way: what
     is sent is exactly the head of the queue as it was when the flush began.
     */
    method FlushOnce(round: Round) returns (ok: bool, ghost sent: seq<Event>)
      requires Valid() && !sending
      modifies this`queue, this`batch, this`sending, this`all, this`trace, this`fifo, this`dropped, this`reported, this`failed, queue.arr
      ensures Valid() && !sending
      ensures queue.arr == old(queue.arr) || fresh(queue.arr)
      ensures ok == (round.ok && old(queue.len) > 0)
      ensures reported == old(reported) + if ok then |sent| else 0
      ensures var n := if old(queue.len) > batchMax then batchMax else old(queue.len);
              && sent == old(Contents(queue))[..n]
              && fifo.delivered == old(fifo).delivered + if ok then old(fifo).queued[..n] else []
    {
      var some := BeginFlush();
      if !some {
        return false, [];
      }
      Arrive(round.arrivals);
      sent := EndFlush(round.ok, round.spare);
      return round.ok, sent;
    }

    /**
     flushAll goes on until the time is up, the queue is empty, the panel refuses, or
     ten batches are out. `sents` are the batches handed to the panel, the last one
     empty if there was nothing left; `oks` are the outcomes.
     */
    method FlushAll(rounds: seq<Round>) returns (ghost sents: seq<seq<Event>>, ghost oks: seq<bool>)
      requires Valid() && !sending && |rounds| >= 10
      modifies this`queue, this`batch, this`sending, this`all, this`trace, this`fifo, this`dropped, this`reported, this`failed, queue.arr
      ensures Valid() && !sending
      ensures |oks| <= 10 && Outcomes(rounds, sents, oks)
      ensures |oks| < 10 ==> (|oks| > 0 && !oks[|oks| - 1]) || rounds[|oks|].late
      ensures reported == old(reported) + Delivered(sents, oks)
      ensures old(fifo).delivered <= fifo.delivered
    {
      sents, oks := [], [];
      for i := 0 to MAX_BATCHES_PER_FLUSH
        invariant Valid() && !sending
        invariant |oks| == i && AllAccepted(rounds, sents, oks)
        invariant reported == old(reported) + Delivered(sents, oks)
        invariant queue.arr == old(queue.arr) || fresh(queue.arr)
        invariant old(fifo).delivered <= fifo.delivered
      {
        if rounds[i].late {
          return;
        }
        ghost var sent;
        var ok;
        ok, sent := FlushOnce(rounds[i]);
        DeliveredMore(sents, oks, sent, ok);
        OneMoreRound(rounds, sents, oks, sent, ok);
        sents, oks := sents + [sent], oks + [ok];
        if !ok {
          return;
        }
      }
    }

    /** Every accepted event is delivered, in flight, queued, or counted as dropped; the queue keeps its cap. */
    lemma Accounted()
      requires Valid()
      ensures F.Inv(fifo, queueCap)
      ensures |all| == reported + |fifo.inflight| + queue.len + |fifo.overflowed|
      ensures dropped == |fifo.overflowed| + fifo.refused
      ensures queue.len <= queueCap
    {
      F.RunInv(trace, queueCap);
    }
  }
}
