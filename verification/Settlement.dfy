/**
 The settlement protocol: tracker, report controller, spool and panel as one
 system whose steps interleave the service loop, the delivery goroutine, the
 shutdown push, the network and crashes. A step is one section under the
 controller's lock, one message, or the end of a process or a service. An end in
 the middle of a locked section is the section ending with the matching failed
 outcome (its effect on memory is lost anyway) followed by that end.

 `Crash` stops the machine: the new process finds one of the contents that the
 disk may have kept. `Kill` stops only the process: the new one sees the slot as
 the old one left it, but unsynced directory changes may still be lost later.
 `Succeed` ends only the service: after its shutdown push, or if it could not be
 set up, a new one is built in the same process, while a delivery goroutine of an
 old controller may live on, with that controller's own idea of what is pending.
 */
module Settlement {
  import opened Wrappers
  import opened Traffic
  import opened Spool
  import opened Reporting

  /** An orphan is the delivery goroutine of a controller that has been replaced. */
  datatype Thread = Async | Sync | Orphan(key: nat)

  datatype Phase = Ready | Waiting | Accepted

  /** A batch on its way: chosen, handed to the sink, or answered with success. */
  datatype Flight = Flight(batch: Batch, phase: Phase)

  /** `clears` says that the batch is still the pending one of the old controller, so that success clears the spool. */
  datatype Orphaned = Orphaned(flight: Flight, clears: bool)

  datatype Main =
    | Serving
    | Next(second: bool, hadPending: bool)                     // PushSync before a nextBatch
    | Pushing(flight: Flight, second: bool, hadPending: bool)  // PushSync between nextBatch and acknowledge
    | Stopped

  /**
   `sent` are the IDs ever handed to the sink: the network may still deliver any
   of them. `ledger` is what the panel has settled, in order. The fields after it
   are history: every tick, which ticks the tracker holds, which batch an ID was
   given to, and the ticks in it.
   */
  datatype World = World(
    store: Store,
    async: Option<Flight>,
    main: Main,
    orphans: map<nat, Orphaned>,
    sent: set<BatchId>,
    ledger: seq<BatchId>,
    log: seq<TrafficMap>,
    held: set<nat>,
    issued: map<BatchId, Batch>,
    origin: map<BatchId, set<nat>>)

  function Init(durable: bool): World {
    World(Store(durable, map[], None, EMPTY_DISK), None, Serving, map[], {}, [], [], {}, map[], map[])
  }

  datatype Action =
    | Tick(delta: TrafficMap)
    | StartAsync(id: BatchId, save: SaveOutcome)
    | StartShutdown
    | NextSync(id: BatchId, save: SaveOutcome)
    | Hand(th: Thread)
    | Commit(id: BatchId)
    | Answer(th: Thread, ok: bool)
    | Acknowledge(th: Thread, clear: ClearOutcome)
    | Crash(left: Option<Batch>)
    | Kill
    | Succeed(key: nat)

  function FlightOf(w: World, th: Thread): Option<Flight> {
    match th
    case Async => w.async
    case Sync => if w.main.Pushing? then Some(w.main.flight) else None
    case Orphan(key) => if key in w.orphans then Some(w.orphans[key].flight) else None
  }

  predicate InPhase(w: World, th: Thread, phase: Phase) {
    FlightOf(w, th).Some? && FlightOf(w, th).value.phase == phase
  }

  function BatchOf(w: World, th: Thread): Batch
    requires FlightOf(w, th).Some?
  {
    FlightOf(w, th).value.batch
  }

  /** nextBatch will take the tracker's traffic under a fresh ID. */
  predicate Flushes(s: Store) {
    s.pending.None? && s.tracker != map[]
  }

  predicate Enabled(w: World, a: Action) {
    match a
    case Tick(delta) => w.main.Serving? && NonNegative(delta)
    case StartAsync(id, _) => w.main.Serving? && w.async.None? && id !in w.issued
    case StartShutdown => w.main.Serving?
    case NextSync(id, _) => w.main.Next? && id !in w.issued
    case Hand(th) => InPhase(w, th, Ready)
    case Commit(id) => id in w.sent && id !in w.ledger
    case Answer(th, ok) => InPhase(w, th, Waiting) && (ok ==> Answerable(BatchOf(w, th), w.ledger))
    case Acknowledge(th, _) => InPhase(w, th, Accepted)
    case Crash(left) => left in w.store.disk.afterCrash
    case Kill => true
    case Succeed(key) => (w.main.Stopped? || (w.main.Serving? && w.async.None?)) && key !in w.orphans
  }

  predicate Answerable(b: Batch, ledger: seq<BatchId>) {
    b.id.None? || b.id.value in ledger
  }

  // ----- steps -----

  function TickStep(w: World, delta: TrafficMap): World {
    w.(store := w.store.(tracker := Plus(w.store.tracker, delta)), log := w.log + [delta], held := w.held + {|w.log|})
  }

  function Issue(w: World, id: BatchId): World {
    if Flushes(w.store) then
      w.(issued := w.issued[id := Batch(Some(id), w.store.tracker)], origin := w.origin[id := w.held], held := {})
    else w
  }

  function StartAsyncStep(w: World, id: BatchId, save: SaveOutcome): World {
    var p := StartAsyncSpec(w.store, id, save);
    var i := Issue(w, id).(store := p.store);
    if p.ok then i.(async := Some(Flight(p.batch, Ready))) else i.(held := w.held)
  }

  function ShutdownStep(w: World): World {
    w.(main := Next(false, w.store.pending.Some?))
  }

  /** A save that fails here drops the flushed ticks. */
  function NextSyncStep(w: World, id: BatchId, save: SaveOutcome): World
    requires w.main.Next?
  {
    var p := NextBatchSpec(w.store, id, save);
    var i := Issue(w, id).(store := p.store);
    if p.ok then i.(main := Pushing(Flight(p.batch, Ready), w.main.second, w.main.hadPending))
    else i.(main := Stopped)
  }

  function SetFlight(w: World, th: Thread, f: Flight): World
    requires FlightOf(w, th).Some?
  {
    match th
    case Async => w.(async := Some(f))
    case Sync => w.(main := w.main.(flight := f))
    case Orphan(key) => w.(orphans := w.orphans[key := w.orphans[key].(flight := f)])
  }

  /** The thread's delivery is over; the shutdown push goes on to new counters or ends. */
  function EndFlight(w: World, th: Thread, ok: bool): World
    requires FlightOf(w, th).Some?
  {
    match th
    case Async => w.(async := None)
    case Sync =>
      if ok && !w.main.second && w.main.hadPending then w.(main := Next(true, true)) else w.(main := Stopped)
    case Orphan(key) => w.(orphans := w.orphans - {key})
  }

  function IdOf(b: Option<Batch>): set<BatchId> {
    if b.Some? && b.value.id.Some? then {b.value.id.value} else {}
  }

  function HandStep(w: World, th: Thread): World
    requires FlightOf(w, th).Some?
  {
    SetFlight(w, th, FlightOf(w, th).value.(phase := Waiting)).(sent := w.sent + IdOf(Some(BatchOf(w, th))))
  }

  /** A failed delivery changes the books of the serving controller only; an orphan's tracker is gone. */
  function AnswerStep(w: World, th: Thread, ok: bool): World
    requires FlightOf(w, th).Some?
  {
    if ok then SetFlight(w, th, FlightOf(w, th).value.(phase := Accepted))
    else
      var store := if th.Async? then FinishAsyncSpec(w.store, BatchOf(w, th), false, NotRemoved).store else w.store;
      EndFlight(w, th, false).(store := store)
  }

  /** An orphan clears whatever the slot holds by now, and no memory but its own. */
  function AcknowledgedStore(w: World, th: Thread, clear: ClearOutcome): Acknowledged
    requires FlightOf(w, th).Some?
  {
    if !th.Orphan? then AcknowledgeSpec(w.store, BatchOf(w, th), clear)
    else if w.store.durable && w.orphans[th.key].clears then
      Acknowledged(w.store.(disk := ClearSpec(w.store.disk, clear)), clear.Cleared?)
    else Acknowledged(w.store, true)
  }

  function AcknowledgeStep(w: World, th: Thread, clear: ClearOutcome): World
    requires FlightOf(w, th).Some?
  {
    var r := AcknowledgedStore(w, th, clear);
    EndFlight(w, th, r.ok).(store := r.store)
  }

  /** A new service opens the spool and finds `left` in it; everything in the memory of the old one is gone. */
  function Restart(w: World, left: Option<Batch>, disk: Disk): World {
    w.(store := Store(w.store.durable, map[], left, disk), async := None, main := Serving, orphans := map[], held := {})
  }

  function CrashStep(w: World, left: Option<Batch>): World {
    Restart(w, left, Disk(left, {left}))
  }

  function KillStep(w: World): World {
    Restart(w, w.store.disk.slot, w.store.disk)
  }

  function SucceedStep(w: World, key: nat): World {
    KillStep(w).(orphans :=
      if w.async.None? then w.orphans
      else w.orphans[key := Orphaned(w.async.value, IsPending(w.store, w.async.value.batch))])
  }

  function Step(w: World, a: Action): World
    requires Enabled(w, a)
  {
    match a
    case Tick(delta) => TickStep(w, delta)
    case StartAsync(id, save) => StartAsyncStep(w, id, save)
    case StartShutdown => ShutdownStep(w)
    case NextSync(id, save) => NextSyncStep(w, id, save)
    case Hand(th) => HandStep(w, th)
    case Commit(id) => w.(ledger := w.ledger + [id])
    case Answer(th, ok) => AnswerStep(w, th, ok)
    case Acknowledge(th, clear) => AcknowledgeStep(w, th, clear)
    case Crash(left) => CrashStep(w, left)
    case Kill => KillStep(w)
    case Succeed(key) => SucceedStep(w, key)
  }

  ghost predicate Reaches(from: World, actions: seq<Action>, to: World)
    decreases |actions|
  {
    if actions == [] then from == to
    else Enabled(from, actions[0]) && Reaches(Step(from, actions[0]), actions[1..], to)
  }

  // ----- where the ticks are -----

  function OriginOf(origin: map<BatchId, set<nat>>, b: Option<Batch>): set<nat> {
    if b.Some? && b.value.id.Some? && b.value.id.value in origin then origin[b.value.id.value] else {}
  }

  function SettledTicks(w: World): set<nat> {
    set i, t | i in w.ledger && i in w.origin && t in w.origin[i] :: t
  }

  /** The tick is not in the tracker, not in the pending batch, and not settled. */
  predicate Gone(w: World, t: nat) {
    t < |w.log| && t !in w.held && t !in OriginOf(w.origin, w.store.pending) && t !in SettledTicks(w)
  }

  // ----- the invariant -----

  predicate Known(issued: map<BatchId, Batch>, b: Batch) {
    b.id.Some? && b.id.value in issued && issued[b.id.value] == b
  }

  /** IDs name one batch each, with at least one tick in it, and all tick numbers are real. */
  ghost predicate Books(
    log: seq<TrafficMap>, issued: map<BatchId, Batch>, origin: map<BatchId, set<nat>>, held: set<nat>, tracker: TrafficMap)
  {
    && issued.Keys == origin.Keys
    && (forall i :: i in issued ==> issued[i].id == Some(i) && issued[i].traffic != map[])
    && (forall i :: i in origin ==> origin[i] != {} && Within(origin[i], log))
    && Within(held, log)
    && (tracker != map[] ==> held != {})
    && (forall i :: 0 <= i < |log| ==> NonNegative(log[i]))
  }

  /** Traffic maps are the sums of the ticks they stand for. */
  ghost predicate Amounts(
    log: seq<TrafficMap>, issued: map<BatchId, Batch>, origin: map<BatchId, set<nat>>, held: set<nat>, tracker: TrafficMap)
  {
    && (forall i, uid, d :: i in issued && i in origin ==> At(issued[i].traffic, uid, d) == Share(log, origin[i], uid, d))
    && (forall uid, d :: At(tracker, uid, d) == Share(log, held, uid, d))
  }

  ghost predicate Records(s: Store, issued: map<BatchId, Batch>) {
    && (s.pending.Some? ==> Known(issued, s.pending.value))
    && (forall b :: Some(b) in s.disk.afterCrash ==> Known(issued, b))
    && s.disk.slot in s.disk.afterCrash
    && (!s.durable ==> s.disk == EMPTY_DISK)
  }

  ghost predicate Panel(issued: map<BatchId, Batch>, sent: set<BatchId>, ledger: seq<BatchId>) {
    && sent <= issued.Keys
    && (forall i :: i in ledger ==> i in sent)
    && (forall i, j :: 0 <= i < j < |ledger| ==> ledger[i] != ledger[j])
  }

  predicate FlightKnown(f: Flight, issued: map<BatchId, Batch>, sent: set<BatchId>, ledger: seq<BatchId>) {
    if f.batch.id.None? then f.batch.traffic == map[]
    else
      && Known(issued, f.batch)
      && (f.phase.Ready? || f.batch.id.value in sent)
      && (f.phase.Accepted? ==> f.batch.id.value in ledger)
  }

  ghost predicate Flights(w: World) {
    forall th :: FlightOf(w, th).Some? ==> FlightKnown(FlightOf(w, th).value, w.issued, w.sent, w.ledger)
  }

  function OrphanIds(orphans: map<nat, Orphaned>): set<BatchId> {
    set key | key in orphans && orphans[key].flight.batch.id.Some? :: orphans[key].flight.batch.id.value
  }

  /** The IDs under which bytes may still be settled, or have been. */
  function Live(w: World): set<BatchId> {
    w.sent + IdOf(w.store.pending) + OrphanIds(w.orphans)
  }

  /** No tick is in two live batches, nor in a live batch and still in the tracker. */
  ghost predicate LiveApart(live: set<BatchId>, origin: map<BatchId, set<nat>>, held: set<nat>) {
    && (forall i, j :: i in live && j in live && i != j && i in origin && j in origin ==> origin[i] !! origin[j])
    && (forall i :: i in live && i in origin ==> origin[i] !! held)
  }

  /** The batch shares no tick with a live one. */
  ghost predicate Aside(b: Batch, live: set<BatchId>, origin: map<BatchId, set<nat>>) {
    forall i :: i in live && i in origin ==> origin[i] !! OriginOf(origin, Some(b))
  }

  /** What a crash may bring back is live already, or shares no tick with anything live. */
  ghost predicate LeftoversApart(d: Disk, live: set<BatchId>, origin: map<BatchId, set<nat>>) {
    forall b :: Some(b) in d.afterCrash && b.id.Some? ==> b.id.value in live || Aside(b, live, origin)
  }

  predicate SettledIn(ledger: seq<BatchId>, b: Batch) {
    b.id.Some? && b.id.value in ledger
  }

  predicate Settled(w: World, b: Batch) {
    SettledIn(w.ledger, b)
  }

  /** A batch is durably in the slot, whatever a crash may do to it. */
  predicate SpooledIn(d: Disk, b: Batch) {
    d.afterCrash == {Some(b)}
  }

  predicate Spooled(w: World, b: Batch) {
    SpooledIn(w.store.disk, b)
  }

  predicate Covers(pending: Option<Batch>, ledger: seq<BatchId>, b: Batch) {
    b.id.Some? ==> pending == Some(b) || SettledIn(ledger, b)
  }

  /** The serving controller only delivers what it will answer for. */
  ghost predicate Backed(w: World) {
    forall th :: FlightOf(w, th).Some? && !th.Orphan? ==> Covers(w.store.pending, w.ledger, BatchOf(w, th))
  }

  /**
   What may be handed to the sink is spooled or already settled, and nothing
   handed over is forgotten. The last two facts say how slot and memory go together.
   */
  ghost predicate Guarded(s: Store, sent: set<BatchId>, ledger: seq<BatchId>, issued: map<BatchId, Batch>, orphans: map<nat, Orphaned>) {
    s.durable ==>
      && (s.pending.Some? ==> SpooledIn(s.disk, s.pending.value) || SettledIn(ledger, s.pending.value))
      && (forall b :: Some(b) in s.disk.afterCrash && b.id.Some? && b.id.value in sent ==>
            s.pending == Some(b) || SettledIn(ledger, b))
      && (forall i :: i in sent ==> i in ledger || (i in issued && s.pending == Some(issued[i])))
      && (forall key :: key in orphans ==> Covers(s.pending, ledger, orphans[key].flight.batch))
      && (s.disk.slot.Some? && SettledIn(ledger, s.disk.slot.value) ==> SpooledIn(s.disk, s.disk.slot.value))
      && (forall b :: s.disk.afterCrash == {Some(b)} ==> s.pending == Some(b) || SettledIn(ledger, b))
  }

  ghost predicate Coupled(w: World) {
    Guarded(w.store, w.sent, w.ledger, w.issued, w.orphans)
  }

  ghost predicate Accounted(w: World) {
    Books(w.log, w.issued, w.origin, w.held, w.store.tracker) && Amounts(w.log, w.issued, w.origin, w.held, w.store.tracker)
  }

  ghost predicate Placed(w: World) {
    Records(w.store, w.issued) && Panel(w.issued, w.sent, w.ledger) && Flights(w)
  }

  ghost predicate Apart(w: World) {
    && LiveApart(Live(w), w.origin, w.held)
    && LeftoversApart(w.store.disk, Live(w), w.origin)
    && Backed(w)
  }

  /** `strict` adds what only holds as long as no service ends, and no orphan clears, at an unsafe moment. */
  ghost predicate Inv(w: World, strict: bool) {
    Accounted(w) && Placed(w) && Apart(w) && (strict ==> Coupled(w))
  }

  // ----- moments that matter -----

  /** The slot can be trusted: it is empty, or no crash can replace its content. */
  predicate Trusted(d: Disk) {
    d.slot.None? || d.afterCrash == {d.slot}
  }

  /** Whatever the disk may still fall back to shares no tick with what the slot shows. */
  ghost predicate KillSafe(w: World) {
    forall b :: Some(b) in w.store.disk.afterCrash && w.store.disk.slot.Some? && w.store.disk.slot != Some(b) ==>
      OriginOf(w.origin, Some(b)) !! OriginOf(w.origin, w.store.disk.slot)
  }

  /** The process or the service ends; what it has on disk stays as it is. */
  predicate EndsService(a: Action) {
    a.Kill? || a.Succeed?
  }

  /** An orphan removes the file in the slot, whatever it is. */
  predicate OrphanClears(w: World, a: Action) {
    && a.Acknowledge? && a.th.Orphan? && a.th.key in w.orphans
    && w.store.durable && w.orphans[a.th.key].clears && a.clear != NotRemoved
  }

  /** The controller keeps a batch that the panel has not settled. */
  predicate InDoubt(w: World) {
    w.store.pending.Some? && !Settled(w, w.store.pending.value)
  }

  /** Services end only while the slot can be trusted, and orphans clear only while nothing is in doubt. */
  predicate Gentle(w: World, a: Action) {
    (EndsService(a) ==> Trusted(w.store.disk)) && !(OrphanClears(w, a) && InDoubt(w))
  }

  ghost predicate GentleRun(from: World, actions: seq<Action>)
    decreases |actions|
  {
    actions != [] && Enabled(from, actions[0]) ==>
      Gentle(from, actions[0]) && GentleRun(Step(from, actions[0]), actions[1..])
  }

  /** Services end only where `KillSafe` holds. */
  ghost predicate Careful(from: World, actions: seq<Action>)
    decreases |actions|
  {
    actions != [] && Enabled(from, actions[0]) ==>
      (EndsService(actions[0]) ==> KillSafe(from)) && Careful(Step(from, actions[0]), actions[1..])
  }

  /** No service ends except with the machine. */
  predicate NoKill(actions: seq<Action>) {
    forall i :: 0 <= i < |actions| ==> !EndsService(actions[i])
  }
}
