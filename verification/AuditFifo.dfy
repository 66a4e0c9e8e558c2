/**
 What the audit queue is meant to be: a bounded first-in first-out queue with one
 batch in flight, in which no event disappears without being counted. Events are
 named by the order in which they were accepted.
 */
module AuditFifo {

  datatype Fifo = Fifo(
    accepted: nat,         // events taken into the queue so far
    delivered: seq<nat>,
    inflight: seq<nat>,
    queued: seq<nat>,
    overflowed: seq<nat>,  // accepted, then dropped when a failed batch came back
    refused: nat)          // never accepted

  const EMPTY := Fifo(0, [], [], [], [], 0)

  datatype Action =
    | Accept
    | Refuse
    | Take(n: nat)
    | Deliver
    | GiveBack

  predicate Enabled(f: Fifo, a: Action, cap: nat) {
    match a
    case Accept => |f.queued| < cap
    case Refuse => true
    case Take(n) => f.inflight == [] && 0 < n <= |f.queued|
    case Deliver => true
    case GiveBack => true
  }

  /** How many events of a failed batch still fit; the oldest ones go. */
  function Kept(f: Fifo, cap: nat): nat {
    if cap <= |f.queued| then 0
    else if cap - |f.queued| < |f.inflight| then cap - |f.queued|
    else |f.inflight|
  }

  function Step(f: Fifo, a: Action, cap: nat): Fifo
    requires Enabled(f, a, cap)
  {
    match a
    case Accept => f.(accepted := f.accepted + 1, queued := f.queued + [f.accepted])
    case Refuse => f.(refused := f.refused + 1)
    case Take(n) => f.(inflight := f.queued[..n], queued := f.queued[n..])
    case Deliver => f.(delivered := f.delivered + f.inflight, inflight := [])
    case GiveBack =>
      var gone := |f.inflight| - Kept(f, cap);
      f.(inflight := [], queued := f.inflight[gone..] + f.queued, overflowed := f.overflowed + f.inflight[..gone])
  }

  function Present(f: Fifo): seq<nat> {
    f.delivered + f.inflight + f.queued
  }

  predicate Increasing(s: seq<nat>) {
    forall i, j :: 0 <= i < j < |s| ==> s[i] < s[j]
  }

  /**
   Delivered, in-flight and queued events stand in acceptance order; each accepted
   event is in exactly one place; the queue keeps its cap.
   */
  ghost predicate Inv(f: Fifo, cap: nat) {
    && Increasing(Present(f))
    && (forall i :: 0 <= i < |Present(f)| ==> Present(f)[i] < f.accepted)
    && (forall e :: e in f.overflowed ==> e < f.accepted && e !in Present(f))
    && (forall e: nat :: e < f.accepted ==> e in Present(f) || e in f.overflowed)
    && (forall i, j :: 0 <= i < j < |f.overflowed| ==> f.overflowed[i] != f.overflowed[j])
    && |Present(f)| + |f.overflowed| == f.accepted
    && |f.queued| <= cap
  }

  lemma AcceptInv(f: Fifo, cap: nat)
    requires Inv(f, cap) && Enabled(f, Accept, cap)
    ensures Inv(Step(f, Accept, cap), cap)
  {
    var f' := Step(f, Accept, cap);
    assert Present(f') == Present(f) + [f.accepted];
  }

  lemma MoveInv(f: Fifo, a: Action, cap: nat)
    requires Inv(f, cap) && Enabled(f, a, cap) && (a.Take? || a.Deliver? || a.Refuse?)
    ensures Inv(Step(f, a, cap), cap)
  {
    assert Present(Step(f, a, cap)) == Present(f);
  }

  /** Giving back a batch cuts its overflowing front out of what is present. */
  lemma GiveBackCuts(f: Fifo, cap: nat) returns (lo: nat, hi: nat)
    requires |f.queued| <= cap
    ensures var f' := Step(f, GiveBack, cap);
            && lo == |f.delivered| && lo <= hi <= |Present(f)|
            && hi - lo == (if |f.inflight| + |f.queued| > cap then |f.inflight| + |f.queued| - cap else 0)
            && Present(f') == Cut(Present(f), lo, hi)
            && f'.overflowed == f.overflowed + Present(f)[lo..hi]
            && f'.accepted == f.accepted && |f'.queued| <= cap
  {
    var f' := Step(f, GiveBack, cap);
    var gone := |f.inflight| - Kept(f, cap);
    lo, hi := |f.delivered|, |f.delivered| + gone;
    assert Present(f) == f.delivered + f.inflight[..gone] + (f.inflight[gone..] + f.queued);
    assert Present(f)[lo..hi] == f.inflight[..gone];
  }

  lemma GiveBackInv(f: Fifo, cap: nat)
    requires Inv(f, cap)
    ensures Inv(Step(f, GiveBack, cap), cap)
  {
    var lo, hi := GiveBackCuts(f, cap);
    CutOrder(Present(f), lo, hi, f.accepted);
    CutInv(Present(f), lo, hi, f.overflowed, f.accepted);
  }

  function Cut(p: seq<nat>, lo: nat, hi: nat): seq<nat>
    requires lo <= hi <= |p|
  {
    p[..lo] + p[hi..]
  }

  lemma CutOrder(p: seq<nat>, lo: nat, hi: nat, accepted: nat)
    requires lo <= hi <= |p| && Increasing(p)
    requires forall i :: 0 <= i < |p| ==> p[i] < accepted
    ensures Increasing(Cut(p, lo, hi))
    ensures forall i :: 0 <= i < |Cut(p, lo, hi)| ==> Cut(p, lo, hi)[i] < accepted
  {
    assert forall i :: 0 <= i < |Cut(p, lo, hi)| ==> Cut(p, lo, hi)[i] == p[if i < lo then i else i + (hi - lo)];
  }

  lemma CutMembers(p: seq<nat>, lo: nat, hi: nat)
    requires lo <= hi <= |p| && Increasing(p)
    ensures forall e :: e in p <==> e in Cut(p, lo, hi) || e in p[lo..hi]
    ensures forall e :: e in Cut(p, lo, hi) ==> e !in p[lo..hi]
  {
    assert p == p[..lo] + p[lo..hi] + p[hi..];
    assert forall i, j :: 0 <= i < lo && lo <= j < hi ==> p[i] < p[j];
    assert forall i, j :: lo <= i < hi && hi <= j < |p| ==> p[i] < p[j];
  }

  /** Moving a middle piece of an increasing sequence over to the overflowed events. */
  lemma CutInv(p: seq<nat>, lo: nat, hi: nat, over: seq<nat>, accepted: nat)
    requires lo <= hi <= |p| && Increasing(p)
    requires forall i :: 0 <= i < |p| ==> p[i] < accepted
    requires forall e :: e in over ==> e < accepted && e !in p
    requires forall e: nat :: e < accepted ==> e in p || e in over
    requires forall i, j :: 0 <= i < j < |over| ==> over[i] != over[j]
    ensures var p', over' := Cut(p, lo, hi), over + p[lo..hi];
            && (forall e :: e in over' ==> e < accepted && e !in p')
            && (forall e: nat :: e < accepted ==> e in p' || e in over')
            && (forall i, j :: 0 <= i < j < |over'| ==> over'[i] != over'[j])
  {
    CutMembers(p, lo, hi);
    var moved, over' := p[lo..hi], over + p[lo..hi];
    forall i, j | 0 <= i < j < |over'|
      ensures over'[i] != over'[j]
    {
      if j >= |over| {
        assert over'[j] == moved[j - |over|] && moved[j - |over|] in p;
        if i < |over| {
          assert over'[i] in over;
        }
      }
    }
  }

  function Run(actions: seq<Action>, cap: nat): Fifo
    requires Possible(actions, cap)
    decreases |actions|, 1
  {
    if actions == [] then EMPTY else Step(Run(actions[..|actions| - 1], cap), actions[|actions| - 1], cap)
  }

  predicate Possible(actions: seq<Action>, cap: nat)
    decreases |actions|, 0
  {
    actions == []
    || (Possible(actions[..|actions| - 1], cap)
        && Enabled(Run(actions[..|actions| - 1], cap), actions[|actions| - 1], cap))
  }

  lemma StepInv(f: Fifo, a: Action, cap: nat)
    requires Inv(f, cap) && Enabled(f, a, cap)
    ensures Inv(Step(f, a, cap), cap)
  {
    if a.Accept? {
      AcceptInv(f, cap);
    } else if a.GiveBack? {
      GiveBackInv(f, cap);
    } else {
      MoveInv(f, a, cap);
    }
  }

  /** Order, conservation and the bound, in every run. */
  lemma {:induction false} RunInv(actions: seq<Action>, cap: nat)
    requires Possible(actions, cap)
    ensures Inv(Run(actions, cap), cap)
  {
    if actions != [] {
      RunInv(actions[..|actions| - 1], cap);
      StepInv(Run(actions[..|actions| - 1], cap), actions[|actions| - 1], cap);
    }
  }

  predicate Follows(actions: seq<Action>, f: Fifo, cap: nat) {
    Possible(actions, cap) && Run(actions, cap) == f
  }

  lemma Extend(actions: seq<Action>, a: Action, cap: nat)
    requires Possible(actions, cap) && Enabled(Run(actions, cap), a, cap)
    ensures Possible(actions + [a], cap)
    ensures Run(actions + [a], cap) == Step(Run(actions, cap), a, cap)
  {
    assert (actions + [a])[..|actions|] == actions;
  }
}
