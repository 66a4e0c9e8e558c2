/**
 Every interleaving of the serialized discovery with the node goroutines, which
 may leave at any time: with an error, or cleanly after a cancellation.
 */
module Discovery {
  import opened Wrappers
  import opened Orchestrator

  /** A goroutine from its claim to the closing of its done channel; only Live serves. */
  datatype Phase = Claimed | Live | Returned(failed: bool) | Recorded | Unregistered | Done

  datatype Instance = Instance(id: int, phase: Phase, startedAt: int)

  /** Where the holder of rediscoverMu stands; the initial start is a first discovery. */
  datatype Pc =
    | Idle(covered: seq<int>)
    | Removing(plan: seq<int>, toRemove: seq<int>)
    | Waiting(plan: seq<int>, toRemove: seq<int>, handle: nat)
    | Clearing(plan: seq<int>, toRemove: seq<int>)
    | Starting(plan: seq<int>, rest: seq<int>)
    | Launching(plan: seq<int>, rest: seq<int>, handle: nat)

  /** The handle of a node is its index in `instances`. */
  datatype State = State(t: Tables, instances: seq<Instance>, pc: Pc)

  const BOOT := State(Tables(map[], map[]), [], Idle([]))

  datatype Action =
    | Begin(plan: seq<int>, toRemove: seq<int>)
    | StopOne
    | AwaitDone
    | ClearOne
    | StartOne(now: int)
    | Launch(now: int)
    | Finish
    | Leave(handle: nat, failed: bool)
    | Record(handle: nat, now: int)
    | Unregister(handle: nat)
    | Close(handle: nat)

  predicate In(s: State, handle: nat, phase: Phase) {
    handle < |s.instances| && s.instances[handle].phase == phase
  }

  predicate Enabled(s: State, a: Action) {
    match a
    case Begin(plan, toRemove) => s.pc.Idle? && Lists(toRemove, Unwanted(s.t, plan))
    case StopOne => s.pc.Removing?
    case AwaitDone => s.pc.Waiting? && In(s, s.pc.handle, Done)
    case ClearOne => s.pc.Clearing? && s.pc.toRemove != []
    case StartOne(_) => s.pc.Starting? && s.pc.rest != []
    case Launch(_) => s.pc.Launching? && In(s, s.pc.handle, Claimed)
    case Finish => s.pc.Starting? && s.pc.rest == []
    case Leave(h, _) => In(s, h, Live)
    case Record(h, _) => h < |s.instances| && s.instances[h].phase.Returned?
    case Unregister(h) => In(s, h, Recorded)
    case Close(h) => In(s, h, Unregistered)
  }

  function Move(s: State, handle: nat, phase: Phase): State
    requires handle < |s.instances|
  {
    s.(instances := s.instances[handle := s.instances[handle].(phase := phase)])
  }

  function Step(s: State, a: Action): State
    requires Enabled(s, a)
  {
    match a
    case Begin(plan, toRemove) => s.(pc := Removing(plan, toRemove))
    case StopOne =>
      if s.pc.toRemove == [] then s.(pc := Starting(s.pc.plan, s.pc.plan))
      else if s.pc.toRemove[0] !in s.t.nodes then s.(pc := Clearing(s.pc.plan, s.pc.toRemove))
      else
        var id := s.pc.toRemove[0];
        s.(t := ForgetSpec(s.t, id), pc := Waiting(s.pc.plan, s.pc.toRemove, s.t.nodes[id]))
    case AwaitDone => s.(pc := Clearing(s.pc.plan, s.pc.toRemove))
    case ClearOne => s.(t := ClearSpec(s.t, s.pc.toRemove[0]), pc := Removing(s.pc.plan, s.pc.toRemove[1..]))
    case StartOne(now) =>
      var id, h := s.pc.rest[0], |s.instances|;
      if id in s.t.nodes || Parked(s.t, id, now) then s.(pc := Starting(s.pc.plan, s.pc.rest[1..]))
      else
        State(ClaimSpec(s.t, id, h, now), s.instances + [Instance(id, Claimed, now)],
              Launching(s.pc.plan, s.pc.rest[1..], h))
    case Launch(now) =>
      var i := s.instances[s.pc.handle];
      s.(instances := s.instances[s.pc.handle := Instance(i.id, Live, now)], pc := Starting(s.pc.plan, s.pc.rest))
    case Finish => s.(pc := Idle(s.pc.plan))
    case Leave(h, failed) => Move(s, h, Returned(failed))
    case Record(h, now) =>
      var i := s.instances[h];
      Move(s, h, Recorded).(t := if i.phase.failed then RecordSpec(s.t, i.id, i.startedAt, now) else ClearSpec(s.t, i.id))
    case Unregister(h) => Move(s, h, Unregistered).(t := ForgetSpec(s.t, s.instances[h].id))
    case Close(h) => Move(s, h, Done)
  }

  ghost predicate Reaches(s: State, run: seq<Action>, t: State)
    decreases |run|
  {
    if run == [] then t == s
    else Enabled(s, run[0]) && Reaches(Step(s, run[0]), run[1..], t)
  }

  // ----- the invariant -----

  /** The goroutine has not removed its handle yet. */
  predicate Holding(p: Phase) {
    p.Claimed? || p.Live? || p.Returned? || p.Recorded?
  }

  /** Every handle belongs to a goroutine of that node which has not removed it yet. */
  predicate HandlesOk(nodes: map<int, nat>, ins: seq<Instance>) {
    forall id | id in nodes :: nodes[id] < |ins| && ins[nodes[id]].id == id && Holding(ins[nodes[id]].phase)
  }

  /** Such a goroutine is the one in the table, or the one that stopNode is waiting for. */
  predicate HoldersOk(nodes: map<int, nat>, ins: seq<Instance>, pc: Pc) {
    forall h | 0 <= h < |ins| && Holding(ins[h].phase) ::
      (ins[h].id in nodes && nodes[ins[h].id] == h) || (pc.Waiting? && pc.handle == h)
  }

  /** Only the goroutine about to be launched is claimed. */
  predicate ClaimsOk(ins: seq<Instance>, pc: Pc) {
    forall h | 0 <= h < |ins| && ins[h].phase.Claimed? :: pc.Launching? && pc.handle == h
  }

  predicate PcOk(s: State) {
    match s.pc
    case Waiting(_, toRemove, h) =>
      toRemove != [] && toRemove[0] !in s.t.nodes && h < |s.instances| && s.instances[h].id == toRemove[0]
    case Clearing(_, toRemove) => toRemove != [] && toRemove[0] !in s.t.nodes
    case Launching(plan, rest, h) => In(s, h, Claimed) && s.instances[h].id in plan && Elements(rest) <= Elements(plan)
    case Starting(plan, rest) => Elements(rest) <= Elements(plan)
    case _ => true
  }

  /** The nodes that may have a handle or a failure. */
  function Allowed(pc: Pc): set<int> {
    match pc
    case Idle(covered) => Elements(covered)
    case Removing(plan, toRemove) => Elements(plan) + Elements(toRemove)
    case Waiting(plan, toRemove, _) => Elements(plan) + Elements(toRemove)
    case Clearing(plan, toRemove) => Elements(plan) + Elements(toRemove)
    case Starting(plan, _) => Elements(plan)
    case Launching(plan, _, _) => Elements(plan)
  }

  predicate Confined(s: State) {
    s.t.nodes.Keys + s.t.failures.Keys <= Allowed(s.pc)
  }

  /** A wanted node is never on the list of those to stop. */
  predicate Separate(pc: Pc) {
    (pc.Removing? || pc.Waiting? || pc.Clearing?) ==> Elements(pc.plan) !! Elements(pc.toRemove)
  }

  predicate Inv(s: State) {
    && HandlesOk(s.t.nodes, s.instances)
    && HoldersOk(s.t.nodes, s.instances, s.pc)
    && ClaimsOk(s.instances, s.pc)
    && PcOk(s)
    && Confined(s)
    && Separate(s.pc)
  }

  lemma TailElements(list: seq<int>)
    requires list != []
    ensures Elements(list) == Elements(list[1..]) + {list[0]}
  {
    assert list == [list[0]] + list[1..];
  }

  lemma BeginInv(s: State, plan: seq<int>, toRemove: seq<int>)
    requires Inv(s) && Enabled(s, Begin(plan, toRemove))
    ensures Inv(Step(s, Begin(plan, toRemove)))
  {
  }

  lemma StopInv(s: State)
    requires Inv(s) && Enabled(s, StopOne)
    ensures Inv(Step(s, StopOne))
  {
    if s.pc.toRemove != [] && s.pc.toRemove[0] in s.t.nodes {
      var id := s.pc.toRemove[0];
      var s' := Step(s, StopOne);
      assert forall h | 0 <= h < |s.instances| && Holding(s.instances[h].phase) && h != s.t.nodes[id] ::
          s.instances[h].id in s'.t.nodes;
    }
  }

  lemma AwaitInv(s: State)
    requires Inv(s) && Enabled(s, AwaitDone)
    ensures Inv(Step(s, AwaitDone))
  {
  }

  lemma ClearInv(s: State)
    requires Inv(s) && Enabled(s, ClearOne)
    ensures Inv(Step(s, ClearOne))
  {
    TailElements(s.pc.toRemove);
  }

  lemma StartInv(s: State, now: int)
    requires Inv(s) && Enabled(s, StartOne(now))
    ensures Inv(Step(s, StartOne(now)))
  {
    TailElements(s.pc.rest);
    assert s.pc.rest[0] in Elements(s.pc.plan);
  }

  lemma LaunchInv(s: State, now: int)
    requires Inv(s) && Enabled(s, Launch(now))
    ensures Inv(Step(s, Launch(now)))
  {
  }

  lemma FinishInv(s: State)
    requires Inv(s) && Enabled(s, Finish)
    ensures Inv(Step(s, Finish))
  {
  }

  lemma LeaveInv(s: State, h: nat, failed: bool)
    requires Inv(s) && Enabled(s, Leave(h, failed))
    ensures Inv(Step(s, Leave(h, failed)))
  {
  }

  lemma RecordInv(s: State, h: nat, now: int)
    requires Inv(s) && Enabled(s, Record(h, now))
    ensures Inv(Step(s, Record(h, now)))
  {
    var id := s.instances[h].id;
    assert id in Allowed(s.pc) by {
      if s.pc.Waiting? && s.pc.handle == h {
        assert id in Elements(s.pc.toRemove);
      } else {
        assert id in s.t.nodes.Keys;
      }
    }
  }

  lemma UnregisterInv(s: State, h: nat)
    requires Inv(s) && Enabled(s, Unregister(h))
    ensures Inv(Step(s, Unregister(h)))
  {
    OwnHandle(s, h);
  }

  lemma CloseInv(s: State, h: nat)
    requires Inv(s) && Enabled(s, Close(h))
    ensures Inv(Step(s, Close(h)))
  {
  }

  /** What a goroutine finds under its node's number is its own handle, or nothing. */
  lemma OwnHandle(s: State, h: nat)
    requires Inv(s) && h < |s.instances| && Holding(s.instances[h].phase)
    ensures s.instances[h].id in s.t.nodes ==> s.t.nodes[s.instances[h].id] == h
  {
  }

  lemma StepInv(s: State, a: Action)
    requires Inv(s) && Enabled(s, a)
    ensures Inv(Step(s, a))
  {
    match a
    case Begin(plan, toRemove) => BeginInv(s, plan, toRemove);
    case StopOne => StopInv(s);
    case AwaitDone => AwaitInv(s);
    case ClearOne => ClearInv(s);
    case StartOne(now) => StartInv(s, now);
    case Launch(now) => LaunchInv(s, now);
    case Finish => FinishInv(s);
    case Leave(h, failed) => LeaveInv(s, h, failed);
    case Record(h, now) => RecordInv(s, h, now);
    case Unregister(h) => UnregisterInv(s, h);
    case Close(h) => CloseInv(s, h);
  }

  lemma {:induction false} RunInv(s: State, run: seq<Action>, t: State)
    requires Inv(s) && Reaches(s, run, t)
    ensures Inv(t)
    decreases |run|
  {
    if run != [] {
      StepInv(s, run[0]);
      RunInv(Step(s, run[0]), run[1..], t);
    }
  }

  // ----- the results -----

  /** A node has at most one goroutine that has not removed its handle, so at most one live service. */
  lemma SingleInstance(run: seq<Action>, t: State, g: nat, h: nat)
    requires Reaches(BOOT, run, t)
    requires g < |t.instances| && h < |t.instances| && t.instances[g].id == t.instances[h].id
    requires Holding(t.instances[g].phase) && Holding(t.instances[h].phase)
    ensures g == h
  {
    RunInv(BOOT, run, t);
  }

  /** The exiting goroutine removes its own handle or nothing: a successor keeps its entry. */
  lemma SuccessorKept(run: seq<Action>, t: State, h: nat, id: int)
    requires Reaches(BOOT, run, t) && Enabled(t, Unregister(h))
    requires id in t.t.nodes && t.t.nodes[id] != h
    ensures id in Step(t, Unregister(h)).t.nodes && Step(t, Unregister(h)).t.nodes[id] == t.t.nodes[id]
  {
    RunInv(BOOT, run, t);
    OwnHandle(t, h);
  }

  /** From a completed discovery until the next one begins, nothing is kept for an unwanted node. */
  lemma OnlyWantedAfterDiscovery(run: seq<Action>, t: State)
    requires Reaches(BOOT, run, t) && t.pc.Idle?
    ensures forall id :: id in t.t.nodes || id in t.t.failures ==> id in t.pc.covered
    ensures forall h :: 0 <= h < |t.instances| && Holding(t.instances[h].phase) ==> t.instances[h].id in t.pc.covered
  {
    RunInv(BOOT, run, t);
    assert forall id :: id in t.t.nodes || id in t.t.failures ==> id in Elements(t.pc.covered);
  }

  /** A discovery stops no wanted node, and passes a node it stops only after its service has ended. */
  lemma StopsOnlyUnwanted(run: seq<Action>, t: State, id: int)
    requires Reaches(BOOT, run, t)
    requires (t.pc.Removing? || t.pc.Waiting? || t.pc.Clearing?) && id in t.pc.toRemove
    ensures id !in t.pc.plan
    ensures t.pc.Clearing? && id == t.pc.toRemove[0] ==>
              forall h :: 0 <= h < |t.instances| && t.instances[h].id == id ==> !Holding(t.instances[h].phase)
  {
    RunInv(BOOT, run, t);
    assert id in Elements(t.pc.toRemove);
  }

  /** No stale handle: when a goroutine is past its own removal, its number is free or belongs to a later one. */
  lemma NoStaleHandle(run: seq<Action>, t: State, h: nat)
    requires Reaches(BOOT, run, t) && h < |t.instances| && !Holding(t.instances[h].phase)
    ensures forall id :: id in t.t.nodes ==> t.t.nodes[id] != h
  {
    RunInv(BOOT, run, t);
  }

  /** Steps until the goroutine's done channel is closed, once its service has been cancelled. */
  function Rank(p: Phase): nat {
    match p
    case Claimed => 5
    case Live => 4
    case Returned(_) => 3
    case Recorded => 2
    case Unregistered => 1
    case Done => 0
  }

  function Onward(h: nat, p: Phase, now: int): seq<Action>
    requires !p.Claimed?
    decreases Rank(p)
  {
    match p
    case Live => [Leave(h, false)] + Onward(h, Returned(false), now)
    case Returned(_) => [Record(h, now)] + Onward(h, Recorded, now)
    case Recorded => [Unregister(h)] + Onward(h, Unregistered, now)
    case Unregistered => [Close(h)]
    case Done => []
  }

  /** stopNode never waits in vain: the goroutine alone can always close its channel, in at most four steps. */
  lemma {:induction false} WaitEnds(s: State, h: nat, now: int) returns (t: State)
    requires Inv(s) && s.pc.Waiting? && s.pc.handle == h
    ensures var more := Onward(h, s.instances[h].phase, now); |more| <= 4 && Reaches(s, more, t)
    ensures t.pc == s.pc && Enabled(t, AwaitDone)
    decreases Rank(s.instances[h].phase)
  {
    var p := s.instances[h].phase;
    var more := Onward(h, p, now);
    if p.Done? {
      t := s;
    } else {
      StepInv(s, more[0]);
      t := WaitEnds(Step(s, more[0]), h, now);
      assert more[1..] == Onward(h, Step(s, more[0]).instances[h].phase, now);
    }
  }

  // ----- backoff over runs -----

  /** The clock shows less than `until` at each start attempt, and no discovery drops the node. */
  predicate KeepsWanting(run: seq<Action>, id: int, until: int) {
    forall i | 0 <= i < |run| ::
      match run[i]
      case StartOne(now) => now < until
      case Begin(plan, _) => id in plan
      case _ => true
  }

  predicate Resting(s: State, id: int, f: Failure) {
    && id in s.t.failures && s.t.failures[id] == f
    && id !in s.t.nodes
    && (s.pc.Waiting? || s.pc.Removing? || s.pc.Clearing? ==> id !in s.pc.toRemove)
  }

  lemma RestsOn(s: State, a: Action, id: int, f: Failure)
    requires Inv(s) && Enabled(s, a) && Resting(s, id, f) && KeepsWanting([a], id, f.nextRetry)
    ensures Resting(Step(s, a), id, f)
  {
    assert a == [a][0];
    match a
    case Begin(plan, toRemove) => assert id in toRemove ==> id in Elements(toRemove);
    case Record(h, _) => OtherNode(s, h, id);
    case _ =>
  }

  lemma OtherNode(s: State, h: nat, id: int)
    requires Inv(s) && h < |s.instances| && Holding(s.instances[h].phase) && id !in s.t.nodes
    requires s.pc.Waiting? ==> id !in s.pc.toRemove
    ensures s.instances[h].id != id
  {
    if s.pc.Waiting? && s.pc.handle == h {
      assert s.pc.toRemove[0] in s.pc.toRemove;
    }
  }

  /**
   A node that has failed stays down until its window has passed, however many
   discoveries run and whatever the other nodes do.
   */
  lemma {:induction false} StaysParked(s: State, run: seq<Action>, t: State, id: int, f: Failure)
    requires Inv(s) && Reaches(s, run, t) && Resting(s, id, f) && KeepsWanting(run, id, f.nextRetry)
    ensures Resting(t, id, f)
    ensures forall h :: 0 <= h < |t.instances| && t.instances[h].id == id ==> !Holding(t.instances[h].phase)
    decreases |run|
  {
    if run != [] {
      assert KeepsWanting([run[0]], id, f.nextRetry);
      StepInv(s, run[0]);
      RestsOn(s, run[0], id, f);
      assert forall i :: 0 <= i < |run[1..]| ==> run[1..][i] == run[i + 1];
      StaysParked(Step(s, run[0]), run[1..], t, id, f);
    } else {
      forall h | 0 <= h < |t.instances| && t.instances[h].id == id
        ensures !Holding(t.instances[h].phase)
      {
        if Holding(t.instances[h].phase) {
          OtherNode(s, h, id);
        }
      }
    }
  }

  /** When a failed goroutine has removed its handle, its node rests for the 15 s to 5 min of its count. */
  lemma FailureParks(run: seq<Action>, t: State, h: nat, now: int)
    requires Reaches(BOOT, run, t) && In(t, h, Returned(true))
    ensures var s2 := Step(Step(t, Record(h, now)), Unregister(h));
            var id := t.instances[h].id;
            && id in s2.t.failures && id !in s2.t.nodes
            && (t.pc.Idle? || id in t.pc.plan ==> Resting(s2, id, s2.t.failures[id]))
            && s2.t.failures[id].count >= 1
            && s2.t.failures[id].nextRetry == now + BackoffFor(s2.t.failures[id].count)
            && now + FAILURE_BACKOFF_INITIAL <= s2.t.failures[id].nextRetry <= now + FAILURE_BACKOFF_MAX
  {
    RunInv(BOOT, run, t);
    var id := t.instances[h].id;
    assert !t.pc.Idle? && id in t.pc.plan ==> id in Elements(t.pc.plan);
    assert (t.pc.Waiting? || t.pc.Removing? || t.pc.Clearing?) && id in t.pc.toRemove ==> id in Elements(t.pc.toRemove);
    BackoffGrows(1, Step(t, Record(h, now)).t.failures[id].count);
  }

  // ----- failures in a row -----

  /** How often a node has failed in a row, and when it did so last. */
  datatype Streak = Streak(length: nat, last: int)

  /** What an observer of the run writes down: when each goroutine was launched, and the streaks. */
  datatype Seen = Seen(launched: map<nat, int>, streaks: map<int, Streak>)

  /**
   A failure of a goroutine that ran for at most 60 s makes the streak longer; one
   after a longer run starts a new streak; a clean exit ends it, and so does a
   discovery that drops the node.
   */
  function Note(s: State, a: Action, seen: Seen): Seen
    requires Enabled(s, a)
  {
    match a
    case Launch(now) => seen.(launched := seen.launched[s.pc.handle := now])
    case ClearOne => seen.(streaks := seen.streaks - {s.pc.toRemove[0]})
    case Record(h, now) =>
      var id := s.instances[h].id;
      if !s.instances[h].phase.failed then seen.(streaks := seen.streaks - {id})
      else if id in seen.streaks && h in seen.launched && now <= seen.launched[h] + 60_000_000_000 then
        seen.(streaks := seen.streaks[id := Streak(seen.streaks[id].length + 1, now)])
      else seen.(streaks := seen.streaks[id := Streak(1, now)])
    case _ => seen
  }

  ghost function Watch(s: State, run: seq<Action>, seen: Seen): Seen
    decreases |run|
  {
    if run == [] || !Enabled(s, run[0]) then seen else Watch(Step(s, run[0]), run[1..], Note(s, run[0], seen))
  }

  ghost predicate LaunchesSeen(ins: seq<Instance>, launched: map<nat, int>) {
    forall h :: 0 <= h < |ins| && !ins[h].phase.Claimed? ==> h in launched && launched[h] == ins[h].startedAt
  }

  ghost predicate StreaksSeen(failures: map<int, Failure>, streaks: map<int, Streak>) {
    && failures.Keys == streaks.Keys
    && forall id :: id in failures ==>
         && streaks[id].length >= 1
         && failures[id] == Failure(streaks[id].length, streaks[id].last + WaitAfter(streaks[id].length))
  }

  lemma NoteRecord(s: State, h: nat, now: int, seen: Seen)
    requires Enabled(s, Record(h, now)) && LaunchesSeen(s.instances, seen.launched) && StreaksSeen(s.t.failures, seen.streaks)
    ensures StreaksSeen(Step(s, Record(h, now)).t.failures, Note(s, Record(h, now), seen).streaks)
  {
    var id := s.instances[h].id;
    var s', seen' := Step(s, Record(h, now)), Note(s, Record(h, now), seen);
    if s.instances[h].phase.failed {
      var earlier := if id in seen.streaks then seen.streaks[id].length else 0;
      BackoffDoublesUpToCap(earlier + 1);
      BackoffDoublesUpToCap(1);
      assert s'.t.failures[id] == Failure(seen'.streaks[id].length, now + WaitAfter(seen'.streaks[id].length));
    }
  }

  lemma NoteStep(s: State, a: Action, seen: Seen)
    requires Enabled(s, a) && LaunchesSeen(s.instances, seen.launched) && StreaksSeen(s.t.failures, seen.streaks)
    ensures LaunchesSeen(Step(s, a).instances, Note(s, a, seen).launched)
    ensures StreaksSeen(Step(s, a).t.failures, Note(s, a, seen).streaks)
  {
    match a
    case Record(h, now) => NoteRecord(s, h, now, seen);
    case _ =>
  }

  lemma {:induction false} WatchKeeps(s: State, run: seq<Action>, t: State, seen: Seen)
    requires Reaches(s, run, t) && LaunchesSeen(s.instances, seen.launched) && StreaksSeen(s.t.failures, seen.streaks)
    ensures StreaksSeen(t.t.failures, Watch(s, run, seen).streaks)
    decreases |run|
  {
    if run != [] {
      NoteStep(s, run[0], seen);
      WatchKeeps(Step(s, run[0]), run[1..], t, Note(s, run[0], seen));
    }
  }

  /**
   In every run a node is parked exactly if its last exits were failures, and then
   until 15 s, 30 s, 1, 2, 4 or 5 minutes after the last of them, by how many there
   were in a row.
   */
  lemma FailuresAddUp(run: seq<Action>, t: State)
    requires Reaches(BOOT, run, t)
    ensures var streaks := Watch(BOOT, run, Seen(map[], map[])).streaks;
            && t.t.failures.Keys == streaks.Keys
            && forall id :: id in streaks ==>
                 && t.t.failures[id].count == streaks[id].length >= 1
                 && t.t.failures[id].nextRetry == streaks[id].last + WaitAfter(streaks[id].length)
  {
    WatchKeeps(BOOT, run, t, Seen(map[], map[]));
  }

  /** Once the window has passed, the next discovery that wants the node starts it again. */
  lemma RetriedAfterWindow(run: seq<Action>, t: State, now: int)
    requires Reaches(BOOT, run, t) && Enabled(t, StartOne(now))
    ensures var id := t.pc.rest[0];
            var s2 := Step(t, StartOne(now));
            s2.pc.Launching? <==> id !in t.t.nodes && (id in t.t.failures ==> now >= t.t.failures[id].nextRetry)
    ensures var id := t.pc.rest[0];
            id !in t.t.nodes <==> forall h :: 0 <= h < |t.instances| && t.instances[h].id == id ==> !Holding(t.instances[h].phase)
  {
    RunInv(BOOT, run, t);
    var id := t.pc.rest[0];
    if id in t.t.nodes {
      assert t.instances[t.t.nodes[id]].id == id;
    }
  }
}
