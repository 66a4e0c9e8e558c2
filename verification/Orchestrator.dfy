/**
 The tables of the machine orchestrator and the critical sections that change
 them. A handle is represented by its start number, which is never reused; times
 and durations are in nanoseconds.
 */
module Orchestrator {
  import opened Wrappers

  const SECOND := 1_000_000_000
  const FAILURE_BACKOFF_INITIAL := 15 * SECOND
  const FAILURE_BACKOFF_MAX := 300 * SECOND
  const BACKOFF_MAX_SHIFT := 10
  const STABLE_RUN_THRESHOLD := 60 * SECOND

  // ----- backoff -----

  function Pow2(k: nat): nat {
    if k == 0 then 1 else 2 * Pow2(k - 1)
  }

  /** Two's complement on 64 bits. */
  function Wrap64(n: int): int {
    (n + 0x8000_0000_0000_0000) % 0x1_0000_0000_0000_0000 - 0x8000_0000_0000_0000
  }

  function BackoffFor(attempt: int): (d: int)
    ensures 0 < d <= FAILURE_BACKOFF_MAX
  {
    var n := if attempt < 1 then 1 else attempt;
    var shift := if n - 1 > BACKOFF_MAX_SHIFT then BACKOFF_MAX_SHIFT else n - 1;
    var d := Wrap64(FAILURE_BACKOFF_INITIAL * Pow2(shift));
    if d <= 0 || d > FAILURE_BACKOFF_MAX then FAILURE_BACKOFF_MAX else d
  }

  lemma {:induction false} Pow2Monotone(a: nat, b: nat)
    requires a <= b
    ensures 1 <= Pow2(a) <= Pow2(b)
    decreases b
  {
    if a < b {
      Pow2Monotone(a, b - 1);
    } else if a > 0 {
      Pow2Monotone(a - 1, a - 1);
    }
  }

  /** The shift never wraps, and capping it is not visible: the wait doubles from 15 s up to 5 min. */
  lemma BackoffDoublesUpToCap(attempt: int)
    ensures BackoffFor(attempt) == Capped(FAILURE_BACKOFF_INITIAL * Pow2(Attempt(attempt) - 1))
    ensures BackoffFor(attempt) == WaitAfter(Attempt(attempt))
  {
    var n := if attempt < 1 then 1 else attempt;
    var shift := if n - 1 > BACKOFF_MAX_SHIFT then BACKOFF_MAX_SHIFT else n - 1;
    assert Pow2(1) == 2 && Pow2(2) == 4 && Pow2(3) == 8 && Pow2(4) == 16;
    assert Pow2(5) == 32 && Pow2(10) == 1024;
    if shift >= 5 {
      Pow2Monotone(5, shift);
    }
    Pow2Monotone(shift, BACKOFF_MAX_SHIFT);
    assert Wrap64(FAILURE_BACKOFF_INITIAL * Pow2(shift)) == FAILURE_BACKOFF_INITIAL * Pow2(shift);
    if n - 1 > BACKOFF_MAX_SHIFT {
      Pow2Monotone(BACKOFF_MAX_SHIFT, n - 1);
    }
  }

  /** The waits in nanoseconds: 15 s, 30 s, 1 min, 2 min, 4 min, and then 5 min. */
  function WaitAfter(failures: int): int {
    if failures <= 1 then 15_000_000_000
    else if failures == 2 then 30_000_000_000
    else if failures == 3 then 60_000_000_000
    else if failures == 4 then 120_000_000_000
    else if failures == 5 then 240_000_000_000
    else 300_000_000_000
  }

  function Capped(d: int): int {
    if d < FAILURE_BACKOFF_MAX then d else FAILURE_BACKOFF_MAX
  }

  function Attempt(attempt: int): (n: int)
    ensures n >= 1
  {
    if attempt < 1 then 1 else attempt
  }

  lemma BackoffGrows(a: int, b: int)
    requires a <= b
    ensures FAILURE_BACKOFF_INITIAL <= BackoffFor(a) <= BackoffFor(b)
  {
    BackoffDoublesUpToCap(a);
    BackoffDoublesUpToCap(b);
    Pow2Monotone(Attempt(a) - 1, Attempt(b) - 1);
    CappedGrows(Pow2(Attempt(a) - 1), Pow2(Attempt(b) - 1));
  }

  lemma CappedGrows(p: nat, q: nat)
    requires 1 <= p <= q
    ensures FAILURE_BACKOFF_INITIAL <= Capped(FAILURE_BACKOFF_INITIAL * p) <= Capped(FAILURE_BACKOFF_INITIAL * q)
  {
  }

  // ----- the tables -----

  datatype Failure = Failure(count: nat, nextRetry: int)

  datatype Tables = Tables(nodes: map<int, nat>, failures: map<int, Failure>)

  predicate Parked(t: Tables, id: int, now: int) {
    id in t.failures && now < t.failures[id].nextRetry
  }

  function ClaimSpec(t: Tables, id: int, handle: nat, now: int): Tables {
    if id in t.nodes || Parked(t, id, now) then t else t.(nodes := t.nodes[id := handle])
  }

  function RecordSpec(t: Tables, id: int, startedAt: int, now: int): Tables {
    var earlier := if id in t.failures && now - startedAt <= STABLE_RUN_THRESHOLD then t.failures[id].count else 0;
    t.(failures := t.failures[id := Failure(earlier + 1, now + BackoffFor(earlier + 1))])
  }

  function ClearSpec(t: Tables, id: int): Tables {
    t.(failures := t.failures - {id})
  }

  function ForgetSpec(t: Tables, id: int): Tables {
    t.(nodes := t.nodes - {id})
  }

  /** The listed numbers, each once. */
  predicate Lists(list: seq<int>, ids: set<int>) {
    && Elements(list) == ids
    && Distinct(list)
  }

  function Unwanted(t: Tables, plan: seq<int>): set<int> {
    (t.nodes.Keys + t.failures.Keys) - Elements(plan)
  }

  class Machine {
    var nodes: map<int, nat>
    var failures: map<int, Failure>
    var nextHandle: nat

    function View(): Tables
      reads this
    {
      Tables(nodes, failures)
    }

    constructor ()
      ensures View() == Tables(map[], map[]) && nextHandle == 0
    {
      nodes, failures, nextHandle := map[], map[], 0;
    }

    /** The locked part of startNode: nothing happens while the node runs or is parked. */
    method Claim(id: int, now: int) returns (handle: Option<nat>)
      modifies this
      ensures View() == ClaimSpec(old(View()), id, old(nextHandle), now)
      ensures handle == if id in old(nodes) || Parked(old(View()), id, now) then None else Some(old(nextHandle))
      ensures nextHandle == old(nextHandle) + if handle.Some? then 1 else 0
    {
      if id in nodes {
        return None;
      }
      if id in failures && now < failures[id].nextRetry {
        return None;
      }
      handle := Some(nextHandle);
      nodes := nodes[id := nextHandle];
      nextHandle := nextHandle + 1;
    }

    method RecordFailure(id: int, startedAt: int, now: int)
      modifies this`failures
      ensures View() == RecordSpec(old(View()), id, startedAt, now)
    {
      var f := if id in failures then failures[id] else Failure(0, 0);
      if now - startedAt > STABLE_RUN_THRESHOLD {
        f := f.(count := 0);
      }
      f := f.(count := f.count + 1);
      failures := failures[id := f.(nextRetry := now + BackoffFor(f.count))];
    }

    method ClearFailure(id: int)
      modifies this`failures
      ensures View() == ClearSpec(old(View()), id)
    {
      failures := failures - {id};
    }

    /** The locked part of stopNode; without a handle there is nothing to wait for. */
    method TakeHandle(id: int) returns (handle: Option<nat>)
      modifies this`nodes
      ensures View() == ForgetSpec(old(View()), id)
      ensures handle == if id in old(nodes) then Some(old(nodes)[id]) else None
    {
      if id !in nodes {
        assert nodes - {id} == nodes;
        return None;
      }
      handle := Some(nodes[id]);
      nodes := nodes - {id};
    }

    method UnregisterNode(id: int)
      modifies this`nodes
      ensures View() == ForgetSpec(old(View()), id)
    {
      nodes := nodes - {id};
    }

    /** The locked part of rediscover: what runs or is parked but no longer wanted, each once. */
    method CollectUnwanted(plan: seq<int>) returns (toRemove: seq<int>)
      ensures Lists(toRemove, Unwanted(View(), plan))
    {
      toRemove := CollectFrom(nodes.Keys, plan, []);
      toRemove := CollectFrom(failures.Keys, plan, toRemove);
    }
  }

  method CollectFrom(keys: set<int>, plan: seq<int>, before: seq<int>) returns (toRemove: seq<int>)
    requires Lists(before, Elements(before))
    ensures Lists(toRemove, Elements(before) + (keys - Elements(plan)))
  {
    toRemove := before;
    var todo: set<int> := keys;
    ghost var done: set<int> := {};
    while todo != {}
      invariant keys == done + todo
      invariant Lists(toRemove, Elements(before) + (done - Elements(plan)))
      decreases |todo|
    {
      ghost var _ := SomeMember(todo);
      var id :| id in todo;
      CollectOne(toRemove, Elements(before), done, plan, id);
      if id !in plan && id !in toRemove {
        toRemove := toRemove + [id];
      }
      todo, done := todo - {id}, done + {id};
    }
  }

  lemma CollectOne(list: seq<int>, before: set<int>, done: set<int>, plan: seq<int>, id: int)
    requires Lists(list, before + (done - Elements(plan)))
    ensures Lists(if id in plan || id in list then list else list + [id], before + (done + {id} - Elements(plan)))
  {
    var was := before + (done - Elements(plan));
    if id in plan || id in list {
      assert id in Elements(plan) || id in Elements(list);
      assert before + (done + {id} - Elements(plan)) == was;
    } else {
      assert forall i :: i in list + [id] <==> i in list || i == id;
      assert Elements(list + [id]) == Elements(list) + {id};
      assert before + (done + {id} - Elements(plan)) == was + {id};
    }
  }
}
