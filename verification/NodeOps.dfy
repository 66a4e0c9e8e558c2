/** Replay protection of the node operations: the last 128 results are remembered by request ID. */
module NodeOps {
  import opened Wrappers

  const MAX_RESULT_CACHE := 128

  datatype Request = Request(id: string, operation: string)

  /** What the runtime makes of a request. */
  datatype Answer = Answer(ok: bool, errorCode: string, message: string, payload: string)

  datatype OpsResult = OpsResult(requestId: string, operation: string, answer: Answer)

  datatype Cache = Cache(results: map<string, OpsResult>, order: seq<string>)

  // ----- the meaning: a window of the last results -----

  /** Everything executed so far, in order, and everything sent. */
  datatype History = History(executed: seq<OpsResult>, sent: seq<OpsResult>)

  function Window(executed: seq<OpsResult>): seq<OpsResult> {
    if |executed| <= MAX_RESULT_CACHE then executed else executed[|executed| - MAX_RESULT_CACHE..]
  }

  predicate DistinctIds(list: seq<OpsResult>) {
    forall i, j :: 0 <= i < j < |list| ==> list[i].requestId != list[j].requestId
  }

  function Remembered(list: seq<OpsResult>, id: string): Option<OpsResult> {
    if list == [] then None
    else if list[0].requestId == id then Some(list[0])
    else Remembered(list[1..], id)
  }

  function HandleSpec(h: History, request: Option<Request>, answer: Answer): History {
    if request.None? || request.value.id == "" then h
    else
      var known := Remembered(Window(h.executed), request.value.id);
      var result := OpsResult(request.value.id, request.value.operation, answer);
      if known.Some? then h.(sent := h.sent + [known.value])
      else History(h.executed + [result], h.sent + [result])
  }

  lemma {:induction false} RememberedIff(list: seq<OpsResult>, id: string)
    ensures Remembered(list, id).Some? <==> exists i :: 0 <= i < |list| && list[i].requestId == id
    ensures Remembered(list, id).Some? ==> Remembered(list, id).value in list && Remembered(list, id).value.requestId == id
  {
    if list != [] {
      RememberedIff(list[1..], id);
      if list[0].requestId != id {
        assert list == [list[0]] + list[1..];
        assert forall i :: 0 < i < |list| ==> list[i] == list[1..][i - 1];
        assert forall i :: 0 <= i < |list| - 1 ==> list[1..][i] == list[i + 1];
      }
    }
  }

  lemma RememberedAt(list: seq<OpsResult>, k: nat)
    requires DistinctIds(list) && k < |list|
    ensures Remembered(list, list[k].requestId) == Some(list[k])
  {
    RememberedIff(list, list[k].requestId);
  }

  // ----- the executor -----

  /** The map and the order are the window, in the window's order. */
  ghost predicate Holds(c: Cache, list: seq<OpsResult>) {
    && DistinctIds(list)
    && |c.order| == |list|
    && (forall i :: 0 <= i < |list| ==> c.order[i] == list[i].requestId)
    && (forall id :: (if id in c.results then Some(c.results[id]) else None) == Remembered(list, id))
  }

  lemma HoldsPush(c: Cache, list: seq<OpsResult>, r: OpsResult)
    requires Holds(c, list) && Remembered(list, r.requestId).None?
    ensures Holds(Cache(c.results[r.requestId := r], c.order + [r.requestId]), list + [r])
  {
    RememberedIff(list, r.requestId);
    forall id
      ensures Remembered(list + [r], id) == if id == r.requestId then Some(r) else Remembered(list, id)
    {
      RememberedPush(list, r, id);
    }
  }

  lemma {:induction false} RememberedPush(list: seq<OpsResult>, r: OpsResult, id: string)
    ensures Remembered(list + [r], id)
            == if Remembered(list, id).Some? then Remembered(list, id) else if r.requestId == id then Some(r) else None
  {
    if list == [] {
      assert (list + [r])[1..] == [];
    } else {
      assert (list + [r])[1..] == list[1..] + [r];
      RememberedPush(list[1..], r, id);
    }
  }

  lemma HoldsPop(c: Cache, list: seq<OpsResult>)
    requires Holds(c, list) && list != []
    ensures Holds(Cache(c.results - {c.order[0]}, c.order[1..]), list[1..])
  {
    forall id
      ensures Remembered(list[1..], id) == if id == list[0].requestId then None else Remembered(list, id)
    {
      RememberedIff(list[1..], id);
    }
  }

  class Executor {
    var results: map<string, OpsResult>
    var order: seq<string>
    ghost var history: History

    ghost predicate Valid()
      reads this
    {
      Holds(Cache(results, order), Window(history.executed))
    }

    constructor ()
      ensures Valid() && history == History([], [])
    {
      results, order, history := map[], [], History([], []);
    }

    method CachedResult(id: string) returns (result: Option<OpsResult>)
      requires Valid()
      ensures result == Remembered(Window(history.executed), id)
    {
      result := if id in results then Some(results[id]) else None;
    }

    /** The new result, or the first one if there is one already; the oldest is forgotten beyond 128. */
    method CompleteResult(r: OpsResult) returns (answer: OpsResult)
      requires Valid()
      modifies this`results, this`order, this`history
      ensures Valid()
      ensures var known := Remembered(Window(old(history.executed)), r.requestId);
              && answer == (if known.Some? then known.value else r)
              && history.executed == old(history.executed) + (if known.Some? then [] else [r])
              && history.sent == old(history.sent) + [answer]
    {
      answer := r;
      ghost var list, executed := Window(history.executed), history.executed;
      if r.requestId in results {
        answer := results[r.requestId];
      } else {
        HoldsPush(Cache(results, order), list, r);
        results, order, executed := results[r.requestId := r], order + [r.requestId], executed + [r];
        if |order| > MAX_RESULT_CACHE {
          HoldsPop(Cache(results, order), list + [r]);
          results, order := results - {order[0]}, order[1..];
          assert Window(executed) == (list + [r])[1..];
        } else {
          assert Window(executed) == list + [r];
        }
      }
      history := History(executed, history.sent + [answer]);
      assert executed + [] == executed;
    }

    /** A request without ID is ignored; one that is remembered is answered without touching the runtime. */
    method Handle(request: Option<Request>, answer: Answer)
      requires Valid()
      modifies this`results, this`order, this`history
      ensures Valid() && history == HandleSpec(old(history), request, answer)
    {
      if request.None? || request.value.id == "" {
        return;
      }
      var cached := CachedResult(request.value.id);
      if cached.Some? {
        history := history.(sent := history.sent + [cached.value]);
        return;
      }
      var _ := CompleteResult(OpsResult(request.value.id, request.value.operation, answer));
    }

    /** The order lists the cached requests, each once, and at most 128. */
    lemma OrderMatchesResults()
      requires Valid()
      ensures |order| <= 128
      ensures forall i, j :: 0 <= i < j < |order| ==> order[i] != order[j]
      ensures forall id :: id in results <==> id in order
      ensures forall id :: id in results ==> results[id].requestId == id
    {
      var list := Window(history.executed);
      forall id
        ensures id in results <==> id in order
        ensures id in results ==> results[id].requestId == id
      {
        RememberedIff(list, id);
        if id in results {
          var i :| 0 <= i < |list| && list[i].requestId == id;
          assert order[i] == id;
        }
      }
    }
  }

  // ----- runs -----

  datatype Arrival = Arrival(request: Option<Request>, answer: Answer)

  function Run(arrivals: seq<Arrival>): History {
    if arrivals == [] then History([], [])
    else
      var last := arrivals[|arrivals| - 1];
      HandleSpec(Run(arrivals[..|arrivals| - 1]), last.request, last.answer)
  }

  /** Equal request IDs are executed at least 129 executions apart. */
  predicate Spaced(executed: seq<OpsResult>) {
    forall i, j :: 0 <= i < j < |executed| && executed[i].requestId == executed[j].requestId ==> j - i > 128
  }

  lemma SpacedPush(executed: seq<OpsResult>, r: OpsResult)
    requires Spaced(executed) && Remembered(Window(executed), r.requestId).None?
    ensures Spaced(executed + [r])
  {
    var w := Window(executed);
    RememberedIff(w, r.requestId);
    forall i | 0 <= i < |executed| && i >= |executed| - MAX_RESULT_CACHE
      ensures executed[i].requestId != r.requestId
    {
      assert w[i - (|executed| - |w|)] == executed[i];
    }
  }

  /**
   In every run the runtime is asked to act twice for one request ID only if at
   least 128 other requests were executed in between.
   */
  lemma {:induction false} ExecutedOncePerWindow(arrivals: seq<Arrival>)
    ensures Spaced(Run(arrivals).executed)
  {
    if arrivals != [] {
      var before, last := arrivals[..|arrivals| - 1], arrivals[|arrivals| - 1];
      ExecutedOncePerWindow(before);
      var h := Run(before);
      if last.request.Some? && last.request.value.id != "" && Remembered(Window(h.executed), last.request.value.id).None? {
        SpacedPush(h.executed, OpsResult(last.request.value.id, last.request.value.operation, last.answer));
      }
    }
  }

  /**
   A replay of any of the last 128 executed requests, whatever operation it names, is
   answered with that request's own first result and executes nothing.
   */
  lemma ReplayAnsweredAsBefore(arrivals: seq<Arrival>, k: nat, replay: Arrival)
    requires var executed := Run(arrivals).executed;
             && |executed| - 128 <= k < |executed|
             && replay.request.Some? && replay.request.value.id == executed[k].requestId != ""
    ensures var h := Run(arrivals);
            Run(arrivals + [replay]) == h.(sent := h.sent + [h.executed[k]])
  {
    ExecutedOncePerWindow(arrivals);
    WindowRemembers(Run(arrivals).executed, k);
    assert (arrivals + [replay])[..|arrivals|] == arrivals;
  }

  /**
   A request whose ID is not among the last 128 executed ones is executed, and its
   own answer is remembered and sent; without a request or an ID nothing happens.
   */
  lemma NewRequestExecuted(arrivals: seq<Arrival>, a: Arrival)
    ensures a.request.None? || a.request.value.id == "" ==> Run(arrivals + [a]) == Run(arrivals)
    ensures var h := Run(arrivals);
            && a.request.Some? && a.request.value.id != ""
            && (forall i :: 0 <= i < |h.executed| && i >= |h.executed| - 128 ==> h.executed[i].requestId != a.request.value.id)
            ==> var result := OpsResult(a.request.value.id, a.request.value.operation, a.answer);
                Run(arrivals + [a]) == History(h.executed + [result], h.sent + [result])
  {
    assert (arrivals + [a])[..|arrivals|] == arrivals;
    var executed := Run(arrivals).executed;
    var w := Window(executed);
    assert forall i :: 0 <= i < |w| ==> w[i] == executed[i + (|executed| - |w|)];
    if a.request.Some? {
      RememberedIff(w, a.request.value.id);
    }
  }

  lemma WindowRemembers(executed: seq<OpsResult>, k: nat)
    requires Spaced(executed) && |executed| - MAX_RESULT_CACHE <= k < |executed|
    ensures Remembered(Window(executed), executed[k].requestId) == Some(executed[k])
  {
    var w := Window(executed);
    var skipped := |executed| - |w|;
    assert forall i :: 0 <= i < |w| ==> w[i] == executed[i + skipped];
    assert DistinctIds(w);
    RememberedAt(w, k - skipped);
  }
}
