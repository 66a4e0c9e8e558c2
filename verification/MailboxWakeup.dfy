/**
 The wake-up channel of the mailbox. A producer changes the box under the lock
 and notifies after releasing it; the consumer takes the token first and drains
 afterwards. Anything may happen in between.
 */
module MailboxWakeup {
  import opened Wrappers
  import opened Users
  import opened Mailbox

  /**
   `owed` counts the producers that have left the lock and have yet to notify;
   `took` says that the consumer holds a token and has not drained yet.
   */
  datatype State = State(world: World, token: bool, owed: nat, took: bool)

  datatype Move =
    | Produce(event: Event)
    | Baseline(users: Option<seq<UserSpec>>, config: Option<NodeSpec>)
    | BecomeReady
    | Notify
    | Take
    | DrainNow

  const IDLE := State(START, false, 0, false)

  predicate Enabled(s: State, m: Move) {
    match m
    case Notify => s.owed > 0
    case Take => s.token && !s.took
    case _ => true
  }

  function Next(s: State, m: Move): State
    requires Enabled(s, m)
  {
    match m
    case Produce(e) =>
      s.(world := Step(s.world, Send(e)), owed := s.owed + if ApplySpec(s.world.box, e).changed then 1 else 0)
    case Baseline(users, config) => s.(world := Step(s.world, Seed(users, config)))
    case BecomeReady => s.(world := Step(s.world, MakeReady), owed := s.owed + 1)
    case Notify => s.(token := true, owed := s.owed - 1)
    case Take => s.(token := false, took := true)
    case DrainNow => s.(world := Step(s.world, Drain), took := false)
  }

  ghost predicate Reaches(s: State, moves: seq<Move>, t: State)
    decreases |moves|
  {
    if moves == [] then t == s
    else Enabled(s, moves[0]) && Reaches(Next(s, moves[0]), moves[1..], t)
  }

  predicate HasWork(b: Box) {
    b.dirtyConfig || b.dirtyUsers || b.dirtyDevices || b.opsRequests != [] || b.needsReconcile
  }

  /** Someone will still bring the consumer to the box. */
  predicate WakeupPending(s: State) {
    s.token || s.owed > 0 || s.took
  }

  predicate Sound(s: State) {
    Inv(s.world) && (s.world.box.ready && HasWork(s.world.box) ==> WakeupPending(s))
  }

  lemma NextSound(s: State, m: Move)
    requires Sound(s) && Enabled(s, m)
    ensures Sound(Next(s, m))
  {
    match m
    case Produce(e) =>
      StepInv(s.world, Send(e));
      if !ApplySpec(s.world.box, e).changed {
        Unchanged(s.world.box, e);
      }
    case Baseline(users, config) => StepInv(s.world, Seed(users, config));
    case BecomeReady => StepInv(s.world, MakeReady);
    case Notify =>
    case Take =>
    case DrainNow =>
      StepInv(s.world, Drain);
      if s.world.box.ready {
        DrainLeavesNoWork(s.world);
      }
  }

  /** An event asks for a wake-up exactly when it leaves work; otherwise it has changed nothing. */
  lemma Unchanged(b: Box, e: Event)
    ensures !ApplySpec(b, e).changed ==> ApplySpec(b, e).box == b
    ensures ApplySpec(b, e).changed ==> HasWork(ApplySpec(b, e).box)
  {
    match e
    case Ops(Some(r)) => assert (b.opsRequests + [r]) != [];
    case _ =>
  }

  lemma DrainLeavesNoWork(w: World)
    requires Inv(w) && w.box.ready
    ensures !HasWork(DrainSpec(w.box).box)
  {
  }

  lemma {:induction false} RunSound(s: State, moves: seq<Move>, t: State)
    requires Sound(s) && Reaches(s, moves, t)
    ensures Sound(t)
    decreases |moves|
  {
    if moves != [] {
      NextSound(s, moves[0]);
      RunSound(Next(s, moves[0]), moves[1..], t);
    }
  }

  /** No wake-up is lost, whatever the interleaving. */
  lemma NoLostWakeup(moves: seq<Move>, t: State)
    requires Reaches(IDLE, moves, t) && t.world.box.ready && HasWork(t.world.box)
    ensures t.token || t.owed > 0 || t.took
  {
    RunSound(IDLE, moves, t);
  }

  /** Once everybody rests, the service knows all that handling each event would have told it. */
  lemma RestMeansDelivered(moves: seq<Move>, t: State)
    requires Reaches(IDLE, moves, t) && t.world.box.ready && !WakeupPending(t)
    ensures t.world.told == Told(t.world.truth.config, t.world.truth.users, t.world.truth.deviceUsers)
    ensures t.world.deliveredOps == t.world.acceptedOps
    ensures t.world.truth.unapplied == 0
  {
    RunSound(IDLE, moves, t);
  }

  /** The moves that remain when no new event arrives. */
  function Finish(s: State): seq<Move>
    decreases s.owed
  {
    if s.owed > 0 then [Notify] + Finish(Next(s, Notify))
    else (if s.took then [DrainNow] else []) + (if s.token then [Take, DrainNow] else [])
  }

  /** And rest is always reached: at most one take and two drains after the last notify. */
  lemma {:induction false} FinishRests(s: State) returns (t: State)
    ensures Reaches(s, Finish(s), t) && !WakeupPending(t)
    ensures t.world.truth.(unapplied := 0) == s.world.truth.(unapplied := 0)
    ensures t.world.acceptedOps == s.world.acceptedOps
    ensures t.world.box.ready == s.world.box.ready
    ensures |Finish(s)| <= s.owed + 3
    decreases s.owed
  {
    if s.owed > 0 {
      t := FinishRests(Next(s, Notify));
      assert Finish(s)[1..] == Finish(Next(s, Notify));
    } else {
      var s1 := if s.took then Next(s, DrainNow) else s;
      var tail := if s.token then [Take, DrainNow] else [];
      t := if s.token then Next(Next(s1, Take), DrainNow) else s1;
      assert Reaches(s1, tail, t) by {
        if s.token {
          assert tail[1..] == [DrainNow] && tail[1..][1..] == [];
          assert Reaches(Next(s1, Take), tail[1..], t);
        }
      }
      if s.took {
        assert Finish(s)[1..] == tail;
      } else {
        assert Finish(s) == tail;
      }
    }
  }

  /** An extra drain is harmless: it hands over nothing and changes nothing. */
  lemma SpuriousDrain(moves: seq<Move>, t: State)
    requires Reaches(IDLE, moves, t) && !HasWork(t.world.box)
    ensures DrainSpec(t.world.box) == Drained(t.world.box, NOTHING)
  {
    RunSound(IDLE, moves, t);
  }
}
