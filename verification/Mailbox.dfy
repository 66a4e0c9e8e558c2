/**
 The machine-mode mailbox of one node: events are coalesced until the service
 drains them, which must lose nothing compared with handling every event.
 */
module Mailbox {
  import opened Wrappers
  import opened Users
  import UserDelta

  const MAX_PENDING_OPS := 128

  datatype NodeSpec = NodeSpec(protocol: string, serverPort: int)

  type Devices = map<int, seq<string>>

  datatype OpsRequest = OpsRequest(requestId: string, operation: string)

  /** None is Go's nil: an event without its payload changes nothing. */
  datatype Event =
    | SyncConfig(config: Option<NodeSpec>)
    | SyncUsers(users: Option<seq<UserSpec>>)
    | SyncUserDelta(action: string, delta: seq<UserSpec>)
    | SyncDevices(devices: Option<Devices>)
    | Ops(request: Option<OpsRequest>)

  /** What a drain hands over; None where the HasX flag is false. */
  datatype MailboxState = MailboxState(
    config: Option<NodeSpec>,
    users: Option<seq<UserSpec>>,
    deviceUsers: Option<Devices>,
    opsRequests: seq<OpsRequest>,
    needsReconcile: bool)

  const NOTHING := MailboxState(None, None, None, [], false)

  datatype Box = Box(
    ready: bool,
    config: Option<NodeSpec>,
    users: seq<UserSpec>,
    deviceUsers: Option<Devices>,
    opsRequests: seq<OpsRequest>,
    dirtyConfig: bool,
    dirtyUsers: bool,
    dirtyDevices: bool,
    needsReconcile: bool,
    hasFullUserState: bool)

  const EMPTY_BOX := Box(false, None, [], None, [], false, false, false, false, false)

  function DeltaOf(users: seq<UserSpec>, action: string, delta: seq<UserSpec>): Option<seq<UserSpec>> {
    if action == "add" then Some(Overlay(users, delta))
    else if action == "remove" then Some(Without(users, Ids(delta)))
    else None
  }

  datatype Applied = Applied(box: Box, changed: bool, accepted: bool)

  function ApplySpec(b: Box, e: Event): Applied {
    match e
    case SyncConfig(Some(c)) => Applied(b.(config := Some(c), dirtyConfig := true), true, true)
    case SyncUsers(Some(us)) => Applied(b.(users := us, dirtyUsers := true, hasFullUserState := true), true, true)
    case SyncDevices(Some(ds)) => Applied(b.(deviceUsers := Some(ds), dirtyDevices := true), true, true)
    case Ops(Some(r)) =>
      if |b.opsRequests| >= MAX_PENDING_OPS then Applied(b, false, false)
      else Applied(b.(opsRequests := b.opsRequests + [r]), true, true)
    case SyncUserDelta(action, delta) =>
      if delta == [] then Applied(b, false, true)
      else if !b.hasFullUserState || DeltaOf(b.users, action, delta) == None then
        Applied(b.(needsReconcile := true), true, true)
      else Applied(b.(users := DeltaOf(b.users, action, delta).value, dirtyUsers := true), true, true)
    case _ => Applied(b, false, true)
  }

  function SeedSpec(b: Box, users: Option<seq<UserSpec>>, config: Option<NodeSpec>): Box {
    var b1 := if users.Some? && !b.hasFullUserState then b.(users := users.value, hasFullUserState := true) else b;
    if config.Some? && b1.config == None then b1.(config := config) else b1
  }

  datatype Drained = Drained(box: Box, state: MailboxState)

  function DrainSpec(b: Box): Drained {
    if !b.ready then Drained(b, NOTHING)
    else
      Drained(
        b.(dirtyConfig := b.dirtyConfig && b.config == None, dirtyUsers := false,
           dirtyDevices := b.dirtyDevices && b.deviceUsers == None,
           opsRequests := [], needsReconcile := false),
        MailboxState(
          if b.dirtyConfig then b.config else None,
          if b.dirtyUsers then Some(b.users) else None,
          if b.dirtyDevices then b.deviceUsers else None,
          b.opsRequests, b.needsReconcile))
  }

  class NodeMailbox {
    var ready: bool
    var config: Option<NodeSpec>
    var users: seq<UserSpec>
    var deviceUsers: Option<Devices>
    var opsRequests: seq<OpsRequest>
    var dirtyConfig: bool
    var dirtyUsers: bool
    var dirtyDevices: bool
    var needsReconcile: bool
    var hasFullUserState: bool
    var token: bool  // the one-slot notify channel

    function View(): Box
      reads this
    {
      Box(ready, config, users, deviceUsers, opsRequests, dirtyConfig, dirtyUsers, dirtyDevices,
          needsReconcile, hasFullUserState)
    }

    constructor ()
      ensures View() == EMPTY_BOX && !token
    {
      ready, config, users, deviceUsers, opsRequests := false, None, [], None, [];
      dirtyConfig, dirtyUsers, dirtyDevices, needsReconcile, hasFullUserState := false, false, false, false, false;
      token := false;
    }

    method Notify()
      modifies this`token
      ensures token
    {
      if !token {
        token := true;
      }
    }

    method MarkReady()
      modifies this`ready, this`token
      ensures View() == old(View()).(ready := true) && token
    {
      ready := true;
      Notify();
    }

    method SeedBaseline(users: Option<seq<UserSpec>>, config: Option<NodeSpec>)
      modifies this
      ensures View() == SeedSpec(old(View()), users, config) && token == old(token)
      ensures dirtyUsers == old(dirtyUsers) && dirtyConfig == old(dirtyConfig) && ready == old(ready)
    {
      if users.Some? && !hasFullUserState {
        this.users := users.value;
        hasFullUserState := true;
      }
      if config.Some? && this.config == None {
        this.config := config;
      }
    }

    method Apply(event: Event) returns (accepted: bool)
      modifies this
      ensures var r := ApplySpec(old(View()), event);
              View() == r.box && accepted == r.accepted && token == (old(token) || r.changed)
    {
      var changed := false;
      accepted := true;
      match event {
        case SyncConfig(c) =>
          if c.Some? {
            config, dirtyConfig, changed := c, true, true;
          }
        case SyncUsers(us) =>
          if us.Some? {
            users, dirtyUsers, hasFullUserState, changed := us.value, true, true, true;
          }
        case SyncDevices(ds) =>
          if ds.Some? {
            deviceUsers, dirtyDevices, changed := ds, true, true;
          }
        case Ops(r) =>
          if r.Some? {
            if |opsRequests| >= MAX_PENDING_OPS {
              accepted := false;
            } else {
              opsRequests, changed := opsRequests + [r.value], true;
            }
          }
        case SyncUserDelta(action, delta) =>
          if |delta| > 0 {
            if !hasFullUserState {
              needsReconcile, changed := true, true;
            } else {
              var ok, result := UserDelta.ApplyUserDelta(users, action, delta);
              if !ok {
                needsReconcile, changed := true, true;
              } else {
                users, dirtyUsers, changed := result, true, true;
              }
            }
          }
      }
      if changed {
        Notify();
      }
    }

    method DrainIfReady() returns (state: MailboxState)
      modifies this
      ensures Drained(View(), state) == DrainSpec(old(View())) && token == old(token)
      ensures !old(ready) ==> View() == old(View()) && state == MailboxState(None, None, None, [], false)
    {
      if !ready {
        return NOTHING;
      }
      state := NOTHING.(needsReconcile := needsReconcile);
      if dirtyConfig && config.Some? {
        state := state.(config := config);
        dirtyConfig := false;
      }
      if dirtyUsers {
        state := state.(users := Some(users));
        dirtyUsers := false;
      }
      if dirtyDevices && deviceUsers.Some? {
        state := state.(deviceUsers := deviceUsers);
        dirtyDevices := false;
      }
      if |opsRequests| > 0 {
        state := state.(opsRequests := opsRequests);
        opsRequests := [];
      }
      needsReconcile := false;
    }
  }

  // ----- coalescing against handling every event -----

  /**
   The node's state if every event were handled at once, and the deltas that could
   not be applied since the last drain.
   */
  datatype Truth = Truth(
    config: Option<NodeSpec>,
    users: Option<seq<UserSpec>>,
    deviceUsers: Option<Devices>,
    unapplied: nat)

  /** What the service has been told by seeding and draining. */
  datatype Told = Told(config: Option<NodeSpec>, users: Option<seq<UserSpec>>, deviceUsers: Option<Devices>)

  datatype World = World(
    box: Box,
    truth: Truth,
    told: Told,
    acceptedOps: seq<OpsRequest>,
    deliveredOps: seq<OpsRequest>)

  const START := World(EMPTY_BOX, Truth(None, None, None, 0), Told(None, None, None), [], [])

  datatype Action =
    | Send(event: Event)
    | Seed(users: Option<seq<UserSpec>>, config: Option<NodeSpec>)
    | MakeReady
    | Drain

  /** One event on its own: the last list, configuration or device map holds, and a delta edits the list. */
  function Handle(t: Truth, e: Event): Truth {
    match e
    case SyncConfig(c) => if c.Some? then t.(config := c) else t
    case SyncUsers(us) => if us.Some? then t.(users := us) else t
    case SyncDevices(ds) => if ds.Some? then t.(deviceUsers := ds) else t
    case Ops(_) => t
    case SyncUserDelta(action, delta) =>
      if delta == [] then t
      else if t.users.Some? && action == "add" then t.(users := Some(Overlay(t.users.value, delta)))
      else if t.users.Some? && action == "remove" then t.(users := Some(Without(t.users.value, Ids(delta))))
      else t.(unapplied := t.unapplied + 1)
  }

  /** A newer value replaces an older one; nothing new leaves it. */
  function Or<T>(newer: Option<T>, older: Option<T>): Option<T> {
    if newer.Some? then newer else older
  }

  function Step(w: World, a: Action): World {
    match a
    case Send(e) =>
      var r := ApplySpec(w.box, e);
      w.(box := r.box, truth := Handle(w.truth, e),
         acceptedOps := w.acceptedOps + if e.Ops? && e.request.Some? && r.accepted then [e.request.value] else [])
    case Seed(users, config) =>
      w.(box := SeedSpec(w.box, users, config),
         truth := w.truth.(users := Or(w.truth.users, users), config := Or(w.truth.config, config)),
         told := w.told.(
           users := if w.truth.users == None then users else w.told.users,
           config := if w.truth.config == None then config else w.told.config))
    case MakeReady => w.(box := w.box.(ready := true))
    case Drain =>
      var d := DrainSpec(w.box);
      w.(box := d.box,
         truth := if d.state.needsReconcile then w.truth.(unapplied := 0) else w.truth,
         told := Told(Or(d.state.config, w.told.config), Or(d.state.users, w.told.users), Or(d.state.deviceUsers, w.told.deviceUsers)),
         deliveredOps := w.deliveredOps + d.state.opsRequests)
  }

  function Run(actions: seq<Action>): World {
    if actions == [] then START else Step(Run(actions[..|actions| - 1]), actions[|actions| - 1])
  }

  /** Told plus dirty is the truth, in each of the three parts; ops are delivered in order; every failed delta shows. */
  predicate Inv(w: World) {
    && w.truth.config == (if w.box.dirtyConfig then w.box.config else w.told.config)
    && (w.box.dirtyConfig ==> w.box.config.Some?)
    && w.truth.config == w.box.config
    && w.truth.users == (if w.box.dirtyUsers then Some(w.box.users) else w.told.users)
    && w.truth.users == (if w.box.hasFullUserState then Some(w.box.users) else None)
    && w.truth.deviceUsers == (if w.box.dirtyDevices then w.box.deviceUsers else w.told.deviceUsers)
    && (w.box.dirtyDevices ==> w.box.deviceUsers.Some?)
    && (w.box.needsReconcile <==> w.truth.unapplied > 0)
    && w.acceptedOps == w.deliveredOps + w.box.opsRequests
    && |w.box.opsRequests| <= MAX_PENDING_OPS
  }

  lemma SendDeltaInv(w: World, action: string, delta: seq<UserSpec>)
    requires Inv(w)
    ensures Inv(Step(w, Send(SyncUserDelta(action, delta))))
  {
    var e := SyncUserDelta(action, delta);
    var w' := Step(w, Send(e));
    assert w'.acceptedOps == w.acceptedOps;
    if delta == [] {
      assert w' == w;
    } else if !w.box.hasFullUserState || DeltaOf(w.box.users, action, delta) == None {
      assert w' == w.(box := w.box.(needsReconcile := true), truth := w.truth.(unapplied := w.truth.unapplied + 1));
    } else {
      var us := DeltaOf(w.box.users, action, delta);
      assert w' == w.(box := w.box.(users := us.value, dirtyUsers := true), truth := w.truth.(users := us));
    }
  }

  lemma SendInv(w: World, e: Event)
    requires Inv(w)
    ensures Inv(Step(w, Send(e)))
  {
    match e
    case SyncUserDelta(action, delta) => SendDeltaInv(w, action, delta);
    case Ops(Some(r)) =>
    case _ => assert Step(w, Send(e)).acceptedOps == w.acceptedOps;
  }

  lemma SeedInv(w: World, users: Option<seq<UserSpec>>, config: Option<NodeSpec>)
    requires Inv(w)
    ensures Inv(Step(w, Seed(users, config)))
  {
  }

  lemma DrainInv(w: World)
    requires Inv(w)
    ensures Inv(Step(w, Drain))
  {
  }

  lemma StepInv(w: World, a: Action)
    requires Inv(w)
    ensures Inv(Step(w, a))
  {
    match a
    case Send(e) => SendInv(w, e);
    case Seed(users, config) => SeedInv(w, users, config);
    case MakeReady =>
    case Drain => DrainInv(w);
  }

  lemma {:induction false} RunInv(actions: seq<Action>)
    ensures Inv(Run(actions))
  {
    if actions != [] {
      RunInv(actions[..|actions| - 1]);
      StepInv(Run(actions[..|actions| - 1]), actions[|actions| - 1]);
    }
  }

  /**
   Whenever a ready mailbox is drained, the service knows exactly what handling
   every event one by one would have left, has received every accepted operation
   once and in order, and is told to reconcile just when a delta was not applied.
   */
  lemma DrainCatchesUp(actions: seq<Action>)
    requires Run(actions).box.ready
    ensures var before, after := Run(actions), Run(actions + [Drain]);
            && after.told.config == after.truth.config
            && after.told.users == after.truth.users
            && after.told.deviceUsers == after.truth.deviceUsers
            && after.deliveredOps == after.acceptedOps
            && (DrainSpec(before.box).state.needsReconcile <==> before.truth.unapplied > 0)
  {
    RunInv(actions);
    assert (actions + [Drain])[..|actions|] == actions;
  }

  /** A delta that names no users, or finds no full list, leaves the list alone; the second asks for a reconcile. */
  lemma DeltaNotApplied(b: Box, action: string, delta: seq<UserSpec>)
    ensures delta == [] ==> ApplySpec(b, SyncUserDelta(action, delta)) == Applied(b, false, true)
    ensures delta != [] && (!b.hasFullUserState || (action != "add" && action != "remove")) ==>
              ApplySpec(b, SyncUserDelta(action, delta)) == Applied(b.(needsReconcile := true), true, true)
  {
  }

  /** After an "add" every number shows its last entry in the delta, and otherwise its old one, in its old place. */
  lemma AddDeltaShows(b: Box, delta: seq<UserSpec>)
    requires b.hasFullUserState && delta != []
    ensures var r := ApplySpec(b, SyncUserDelta("add", delta));
            && r == Applied(b.(users := r.box.users, dirtyUsers := true), true, true)
            && (forall id ::
                  Lookup(r.box.users, id) == if Lookup(delta, id).Some? then Lookup(delta, id) else Lookup(b.users, id))
            && |b.users| <= |r.box.users|
            && (forall i :: 0 <= i < |b.users| ==> r.box.users[i].id == b.users[i].id)
            && (UniqueIds(b.users) ==> UniqueIds(r.box.users))
  {
    OverlayShape(b.users, delta);
  }

  /** After a "remove" exactly the users whose numbers are not listed remain, in order: `kept` are their old places. */
  lemma RemoveDeltaShows(b: Box, delta: seq<UserSpec>) returns (kept: seq<nat>)
    requires b.hasFullUserState && delta != []
    ensures var r := ApplySpec(b, SyncUserDelta("remove", delta));
            && r == Applied(b.(users := r.box.users, dirtyUsers := true), true, true)
            && Picks(b.users, r.box.users, kept)
            && (forall i :: 0 <= i < |b.users| ==> (i in kept <==> forall j :: 0 <= j < |delta| ==> delta[j].id != b.users[i].id))
  {
    kept := WithoutOrder(b.users, Ids(delta));
    forall i | 0 <= i < |b.users|
      ensures i in kept <==> forall j :: 0 <= j < |delta| ==> delta[j].id != b.users[i].id
    {
      IdsAt(delta, b.users[i].id);
    }
  }

  /** An operation is refused just when 128 are waiting, and then nothing else changes. */
  lemma RefusedIffFull(actions: seq<Action>, r: OpsRequest)
    ensures var w := Run(actions);
            && (!ApplySpec(w.box, Ops(Some(r))).accepted <==> |w.box.opsRequests| == 128)
            && (!ApplySpec(w.box, Ops(Some(r))).accepted ==> ApplySpec(w.box, Ops(Some(r))).box == w.box)
  {
    RunInv(actions);
  }
}
