/**
 The retry gate in front of both asynchronous controllers (traffic reports and
 control-plane polls): one attempt at a time, and a pause after a failure.
 */
module Backoff {

  function SkipAfterFailure(skipRemaining: int): int {
    if skipRemaining <= 0 then 1
    else if skipRemaining < 8 then skipRemaining * 2
    else skipRemaining
  }

  class Backoff {
    var skipRemaining: int

    constructor ()
      ensures skipRemaining == 0
    {
      skipRemaining := 0;
    }

    method ShouldSkip() returns (skip: bool)
      modifies this
      ensures skip == (old(skipRemaining) > 0)
      ensures skipRemaining == if skip then old(skipRemaining) - 1 else old(skipRemaining)
    {
      if skipRemaining > 0 {
        skipRemaining := skipRemaining - 1;
        return true;
      }
      return false;
    }

    method OnSuccess()
      modifies this
      ensures skipRemaining == 0
    {
      skipRemaining := 0;
    }

    method OnFailure()
      modifies this
      ensures skipRemaining == SkipAfterFailure(old(skipRemaining))
    {
      if skipRemaining <= 0 {
        skipRemaining := 1;
      } else if skipRemaining < 8 {
        skipRemaining := skipRemaining * 2;
      }
    }
  }

  // ----- the gate as a whole: the active flag and the backoff counter -----

  datatype Gate = Gate(active: bool, skipRemaining: int)

  datatype Event =
    | Tick                // the ticker fires: try to start an attempt
    | Finished(ok: bool)  // the attempt in flight ends

  const OPEN := Gate(false, 0)

  /** An attempt can only end while one is in flight. */
  predicate Enabled(g: Gate, e: Event) {
    e.Finished? ==> g.active
  }

  predicate Starts(g: Gate, e: Event) {
    e.Tick? && !g.active && g.skipRemaining <= 0
  }

  function Step(g: Gate, e: Event): Gate {
    match e
    case Tick =>
      if g.active then g
      else if g.skipRemaining > 0 then g.(skipRemaining := g.skipRemaining - 1)
      else g.(active := true)
    case Finished(ok) =>
      Gate(false, if ok then 0 else SkipAfterFailure(g.skipRemaining))
  }

  function Run(events: seq<Event>): Gate {
    if events == [] then OPEN else Step(Run(events[..|events| - 1]), events[|events| - 1])
  }

  predicate Possible(events: seq<Event>) {
    events == []
    || (Possible(events[..|events| - 1]) && Enabled(Run(events[..|events| - 1]), events[|events| - 1]))
  }

  /** The counter never leaves {0, 1}, so the doubling branch of OnFailure is never taken. */
  lemma {:induction false} SkipsAtMostOne(events: seq<Event>)
    requires Possible(events)
    ensures 0 <= Run(events).skipRemaining <= 1
    ensures Run(events).active ==> Run(events).skipRemaining == 0
  {
    if events != [] {
      SkipsAtMostOne(events[..|events| - 1]);
    }
  }

  /** Every failure costs exactly one idle tick: the tick after it is refused, the one after that starts. */
  lemma FailureSkipsExactlyOneTick(events: seq<Event>)
    requires Possible(events) && Run(events).active
    ensures var failed := events + [Finished(false)];
            && !Starts(Run(failed), Tick)
            && Starts(Run(failed + [Tick]), Tick)
  {
    SkipsAtMostOne(events);
    var failed := events + [Finished(false)];
    assert failed[..|events|] == events;
    assert (failed + [Tick])[..|failed|] == failed;
  }

  /** After a success the next tick starts an attempt, and during an attempt none does. */
  lemma SuccessSkipsNothing(events: seq<Event>)
    requires Possible(events) && Run(events).active
    ensures Starts(Run(events + [Finished(true)]), Tick)
    ensures !Starts(Run(events), Tick) && Run(events + [Tick]) == Run(events)
  {
    assert (events + [Finished(true)])[..|events|] == events;
    assert (events + [Tick])[..|events|] == events;
  }

  /** No two ticks in a row are refused by the pause, and a tick that starts an attempt keeps the others out. */
  lemma NeverTwoIdleTicks(events: seq<Event>)
    requires Possible(events) && !Run(events).active
    ensures Starts(Run(events), Tick) || Starts(Run(events + [Tick]), Tick)
    ensures Run(events + [Tick]).active <==> Starts(Run(events), Tick)
  {
    SkipsAtMostOne(events);
    assert (events + [Tick])[..|events|] == events;
  }
}
