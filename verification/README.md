# Verified model of the proxy node's stateful protocols

The repository is the agent that runs on a proxy node. What is hard in it are a
few small protocols that must keep an invariant through failures, retries,
crashes and interleavings. This Dafny project models them and proves what they
promise.

| Files | What they model |
|---|---|
| `Traffic`, `Tracker`, `Backoff`, `Spool`, `Reporting`, `Settlement`, `PushRefines`, `SettlementProof`, `SettlementResults`, `SettlementRestarts`, `SettlementOrphans`, `SettlementLeftovers`, `SettlementProgress`, `EndToEnd` | durable traffic settlement: from cumulative kernel counters to batches that the panel settles once |
| `GoSlice`, `AuditFifo`, `Audit` | the audit queue, built on aliased slices, against an abstract FIFO with exact loss counters |
| `DeviceGate`, `GateHistory`, `ConnTracker`, `AliveReport`, `XrayDispatcher`, `XrayLimits`, `GateRuns` | the device gate and the reference counts of both kernels, and one history theorem for both |
| `Users`, `UserDelta` | user lists and the two implementations of a user delta |
| `Mailbox`, `MailboxWakeup` | event coalescing in machine mode and its wake-up channel |
| `Orchestrator`, `Discovery` | node lifecycle: serialized discovery against node goroutines that leave at any time |
| `Limiter`, `SpeedTracker`, `UserState` | limit indexes, token buckets and their exact rollback |
| `SingBox`, `UserSync`, `Service` | agreement of the kernel's users with the desired users under failures |
| `NodeOps` | replay protection of node operations |
| `Base36` | connection identifiers |

How it is built. Code that changes fields is a class whose methods are proved
against functions on values (`NextBatchSpec`, `ApplySpec`, `ClaimSpec`, ...).
Runs and interleavings are step relations over the same functions, so the
theorems about runs speak of what the methods do. What the environment decides
(whether a save, a reload or an answer fails, what the clock shows, the order in which a Go
map is walked, what arrives meanwhile) is an argument or a free choice.

Points where the code and its comments differ; the model follows the code:

- The retry backoff of reports and polls is described as growing and bounded. A
  skip counter above one is unreachable (`Backoff.SkipsAtMostOne`).
- The device limit does not bound the number of admitted addresses, except
  under the condition of `GateHistory.LimitBoundsIff`.
- The 64 KiB burst floor and the four-second cap of speed limits never apply
  (`Limiter.RateOf`, `Limiter.FreshRate`). `HasLimits` says whether a bucket
  exists, not whether a user has a limit (`SpeedTracker.SpeedTracker.HasLimitsTells`).
- A new service trusts the record it finds without syncing the directory. After
  a rename that was neither synced nor removed again, a process kill can
  let a batch go out that a later machine crash loses or exchanges
  (`SettlementRestarts.KillKeepsCouplingIff` and `KillHarmlessIff` give the exact
  conditions).
- A delivery goroutine may outlive its service when all services are rebuilt in
  one process (cmd/tx-node/main.go:236-272); its late success clears the slot by
  path and can remove the successor's record
  (`SettlementOrphans.OrphanClearHarmlessIff` gives the exact condition).
- A user that was served without a limit keeps an empty entry; once it gets a
  limit, its closed connections are no longer released until the kernel instance
  is recycled (`XrayDispatcher.CloseUndoesOpenIff`, `XrayLimits.LimitAfterUnlimitedLeaks`).
- The alive report lets a user's second limited name overwrite the first
  (`AliveReport.ExactIff` says when that matters; the kernel enters two names for
  each user, internal/kernel/xray/xray.go:790-802).
- An add delta can report success and leave the kernel with an old UUID
  (`UserSync.AddDeltaAgreesIff` gives the exact condition).

Names used for runs: a `Careful` run ends a process or a service only where
`KillSafe` holds. A `GentleRun` ends them only while the slot is `Trusted`, and
no orphan clears the slot while a batch is in doubt. A machine crash is always
allowed.

Assumptions: batch IDs are fresh; the panel settles an ID once and a native
acknowledgement echoes it (internal/txboard/client.go:171-175); check and
registration at the device gate are one step; no `sync.nodes` event arrives
during the initial start loop (internal/machine/machine.go:166-168).

## Model

| member | source | states |
|---|---|---|
| `SettlementResults.AtMostOnce` | internal/reporting/controller.go:58-98 | in every interleaving of ticks, failing saves, lost answers, late deliveries, failing clears, shutdown push, machine crashes, and process kills and new services at moments that are KillSafe, no tracked byte is in two settled batches, and settled + in doubt + still in the tracker never exceeds what was counted, per user and direction |
| `SettlementResults.OrderlyRunsConserve` | internal/reporting/controller.go:55-80 | without restarts and without a failed save in the shutdown push, settled + in doubt + in the tracker equals all bytes counted |
| `SettlementResults.NothingDroppedIsExact` | internal/service/report_adapter.go:41-51 | the same equation in every careful run, restarts of every kind included, after which no tick is gone |
| `SettlementResults.OnlyTheseDrop` | internal/reporting/controller.go:193-196 | in every state of the plain invariant the only steps after which a tick can be gone are restarts and the shutdown push that could not spool its batch |
| `SettlementResults.StableReplay` | internal/reporting/controller.go:55-63 | two deliveries under one ID carry the same batch, across any steps and restarts between them |
| `EndToEnd.SettledNeverExceedsCarried` | internal/tracker/tracker.go:80-114 | from the kernel's readings to the panel: over any careful run, settled + in doubt + in the tracker never exceeds what the kernels of all services really carried |
| `EndToEnd.OrderlyCountsCarriedIff` | internal/tracker/tracker.go:90-103 | in an orderly run it is exactly that if and only if every kernel restart shows in the readings |
| `EndToEnd.TicksAreCounted` | internal/tracker/tracker.go:80-114 | the ticks of a run are what the delta rule counts over the readings, starting afresh with each service |
| `SettlementRestarts.SpoolCoupling` | internal/reporting/spool.go:53-97 | over every gentle run (services end only while the slot can be trusted, and no orphan clears while a batch is in doubt): a batch about to be handed to the sink is durably in the slot or settled; a sent and unsettled ID is the pending one; what else a restart may bring back is settled, or was never sent and shares no byte with what was; every possible slot content loads |
| `SettlementRestarts.CrashCostsOnlyTheTracker` | internal/reporting/controller.go:107-112 | after every gentle run, any restart (crash, kill or new service) loses at most what the tracker had not handed over |
| `SettlementRestarts.KillKeepsCouplingIff` | internal/reporting/spool.go:36-50 | after a kill everything stays durably handed over, and restarts cost only the tracker, in all gentle continuations, if and only if the slot was empty or no crash could replace its content |
| `SettlementRestarts.SuccessionKeepsCouplingIff` | internal/reporting/spool.go:36-50 | the same if and only if for a new service in the same process |
| `SettlementRestarts.TrustAfterSave` | internal/reporting/spool.go:80-88 | which save outcomes leave the slot trustworthy: only a rename that is neither synced nor removed again ends the trust, be it that sync and clean-up both fail or that the process is killed in between |
| `SettlementRestarts.TrustAfterClear` | internal/reporting/spool.go:92-97 | likewise for a clear: any removal restores the trust |
| `SettlementRestarts.CleanSavesAreGentle` | internal/reporting/spool.go:80-90 | in runs in which no save stops there, services may be killed and replaced at any time |
| `SettlementRestarts.KilledServiceHandsUnspooled` | internal/reporting/spool.go:36-50 | after it, a kill makes the next service hand over a batch that is neither durable nor settled |
| `SettlementRestarts.KilledServiceLoses` | internal/reporting/spool.go:36-50 | and a crash then loses bytes that the tracker had handed over |
| `SettlementRestarts.UnsettledStays` | internal/reporting/controller.go:82-98 | no step, and no end of process, service or machine, takes an unsettled pending batch out of memory or off the disk, except an orphan's clear |
| `SettlementRestarts.PendingUntilSettled` | internal/reporting/controller.go:55-98 | over any run with restarts of every kind at any time, a spooled batch stays pending and on disk, unchanged, until the panel has settled it, unless an orphan clears the slot while it is in doubt |
| `SettlementRestarts.LateAcknowledgement` | internal/reporting/controller.go:184-216 | the goroutine's late acknowledgement of X after the same controller's shutdown push installed Y changes nothing |
| `SettlementRestarts.KillHarmlessIff` | internal/reporting/spool.go:83-97 | no careful continuation after a process kill settles a tick twice if and only if the disk cannot fall back to a batch sharing ticks with the slot |
| `SettlementRestarts.UnsafeKillIsReachable` | internal/reporting/spool.go:83-88 | two saves whose directory sync and clean-up both fail do reach a state where that condition is false |
| `SettlementOrphans.OrphanClearHarmlessIff` | internal/reporting/controller.go:88-95 | after the late success of a goroutine whose controller has been replaced, restarts cost only the tracker if and only if the new controller has nothing in doubt |
| `SettlementOrphans.OrphanClearCouplesIff` | internal/reporting/controller.go:88-95 | memory and disk stay coupled in the same cases |
| `SettlementOrphans.DoubtShowsInTheSlot` | internal/reporting/controller.go:88-95 | with a trusted slot these are: it is empty, holds the same ID, or a settled batch |
| `SettlementOrphans.OrphanLosesSuccessorsBatch` | internal/reporting/controller.go:148-178 | a run without any failed file operation in which such a late success removes the successor's record, so that a crash loses it |
| `SettlementLeftovers.LeftoversNeverSent` | internal/reporting/spool.go:80-88 | in runs without kills and replaced services, what else a crash might bring back was never sent and shares no tick with anything that was |
| `SettlementLeftovers.KillSafeOnDisk` | internal/reporting/spool.go:83-97 | in such runs the condition for a harmless kill can be read off the disk: the slot is empty, or only nothing or the slot's own content can come back |
| `SettlementProgress.EverythingCanSettle` | internal/reporting/controller.go:123-180 | from every state in which the service serves, finitely many working steps empty pending batch and tracker, and whatever was not lost before is settled then, byte for byte |
| `SettlementProgress.GentleRunsCanSettle` | internal/reporting/controller.go:123-180 | so after every gentle run with a spool |
| `SettlementProgress.DoubtCanSettle` | internal/reporting/controller.go:107-112 | in any state of the strict invariant, shut down or not, a restart and a report can settle the batch in doubt |
| `SettlementProof.StepInv` | internal/reporting/controller.go:123-216 | every step of the protocol keeps the invariant behind the theorems above |
| `SettlementProof.RunInv` | internal/reporting/controller.go:123-216 | so does every run |
| `SettlementProof.CrashInv` | internal/reporting/spool.go:36-50 | a restart with anything a crash may have left keeps the invariant |
| `SettlementProof.SucceedInv` | internal/service/service.go:107-120 | so does a new service beside the old one's goroutine |
| `SettlementProof.ReleaseInv` | internal/reporting/controller.go:82-98 | forgetting a settled batch, or clearing a slot that nothing in doubt needs, keeps it |
| `SettlementProof.InstallInv` | internal/reporting/controller.go:66-78 | giving the tracker's ticks a fresh ID and a spooled record keeps it |
| `SettlementProof.SaveFailedInv` | internal/reporting/spool.go:80-88 | a save that fails at any point, also after the rename, keeps it while the bytes return to the tracker |
| `Reporting.Controller.NextBatch` | internal/reporting/controller.go:58-80 | returns the pending batch if there is one; otherwise flushes the tracker and, if there is traffic, installs it under the fresh ID only after the spool accepted it |
| `Reporting.Controller.Acknowledge` | internal/reporting/controller.go:82-98 | clears spool and memory only for the pending ID, and neither if the clear fails |
| `Reporting.Controller.PushAsync` | internal/reporting/controller.go:123-147 | nothing is flushed while a report is active or the backoff skips; a failed save gives the flushed bytes back to the tracker |
| `Reporting.Controller.FinishAsync` | internal/reporting/controller.go:148-178 | identified traffic is never restored after a failed delivery, and the gate moves as the backoff says |
| `Reporting.Controller.Deliver` | internal/reporting/controller.go:193-202 | one delivery of the shutdown push |
| `Reporting.Controller.PushSync` | internal/reporting/controller.go:184-216 | the batch in doubt first and, if there was one and it got through, the new counters, stopping at the first error; the four rows below say what that comes to |
| `PushRefines.PushSyncRefines` | internal/reporting/controller.go:184-216 | from every serving state the shutdown push is a run of the settlement protocol from the shutdown to the end of the service, with a second round exactly if a batch was pending and the first round succeeded: the same store, and the same batches handed over in the same order |
| `PushRefines.PushSyncSendsAll` | internal/reporting/controller.go:184-216 | with every call working, the pending batch and then the tracker's traffic under a fresh ID are sent, one delivery if nothing is pending, and nothing is left in memory |
| `PushRefines.PushSyncStops` | internal/reporting/controller.go:191-213 | at the first failing report, save or acknowledgement: what has been sent by then, and what stays pending or in the tracker |
| `PushRefines.FinishAsyncRefines` | internal/reporting/controller.go:148-178 | the end of an asynchronous delivery is the panel's settling, the answer and the acknowledgement of the protocol, with the same store |
| `PushRefines.FinishAsyncOutcome` | internal/reporting/controller.go:148-178 | for the pending batch: success forgets it in memory and on disk, anything else keeps it, and the tracker is untouched |
| `Spool.BatchSpool.Save` | internal/reporting/spool.go:53-90 | slot and possible after-crash contents for each point of failure, including the rename followed by a failed directory sync |
| `Spool.BatchSpool.Clear` | internal/reporting/spool.go:92-97 | likewise for the removal |
| `Spool.BatchSpool.Open` | internal/reporting/spool.go:36-50 | an empty slot or a batch with ID and traffic loads, anything else is refused |
| `Tracker.Tracker.Process` | internal/tracker/tracker.go:80-114 | remembers the readings and adds exactly the non-zero deltas to the pending traffic |
| `Tracker.Tracker.FlushTraffic` | internal/tracker/tracker.go:135-142 | hands out the whole pending traffic and leaves none |
| `Tracker.Tracker.RestoreTraffic` | internal/tracker/tracker.go:144-153 | adds the traffic back, per user and direction |
| `Tracker.RunConserves` | internal/tracker/tracker.go:80-153 | over any run, flushed - restored + pending is what the delta rule counts over the readings |
| `Tracker.MonotoneCounterIsExact` | internal/tracker/tracker.go:80-114 | for a counter that never decreases that is its last reading |
| `Tracker.RestartsNeverOverCount` | internal/tracker/tracker.go:90-103 | over kernel restarts from zero the count never exceeds the true total, and equals it exactly if each first reading after a restart is below the last one before it or nothing had been read |
| `Tracker.RunNeverOverCounts` | internal/tracker/tracker.go:80-153 | the same for whole runs with flushes and restores |
| `Backoff.SkipsAtMostOne` | internal/reporting/controller.go:227-251 | the skip counter never leaves 0 and 1, so the doubling is never reached |
| `Backoff.FailureSkipsExactlyOneTick` | internal/reporting/controller.go:131-137 | every failure costs exactly one idle tick |
| `Backoff.SuccessSkipsNothing` | internal/reporting/controller.go:131-137 | after a success the next tick starts an attempt, and while one is in flight none does |
| `Backoff.NeverTwoIdleTicks` | internal/nodesync/controller.go:66-84 | of two consecutive idle ticks one starts an attempt |
| `Backoff.Backoff.OnFailure` | internal/nodesync/controller.go:192-201 | one, then doubled below eight |
| `Audit.Reporter.Enqueue` | internal/audit/reporter.go:265-275 | appending to the queue slice never changes the batch being sent |
| `Audit.Reporter.Observe` | internal/audit/reporter.go:252-290 | what is ignored, what is refused and counted, and what is accepted |
| `Audit.Reporter.BeginFlush` | internal/audit/reporter.go:444-455 | the batch is the head of the queue, at most batch_max long, sharing its array |
| `Audit.Reporter.PutBack` | internal/audit/reporter.go:482-488 | the in-place append of batch tail and queue holds exactly the kept tail followed by the current queue |
| `Audit.Reporter.Requeue` | internal/audit/reporter.go:473-491 | a failed batch returns to the head, the oldest overflow is dropped and counted |
| `Audit.Reporter.EndFlush` | internal/audit/reporter.go:457-468 | what was sent is the batch as taken, whatever arrived meanwhile; counters and queue follow the answer |
| `Audit.Reporter.FlushOnce` | internal/audit/reporter.go:444-468 | with arrivals during the request, exactly the queue's head at the start is sent and, on success, delivered |
| `Audit.Reporter.FlushAll` | internal/audit/reporter.go:419-440 | goes on until the time is up, the queue is empty, the panel refuses or ten batches are out; reported grows by the batches that were accepted |
| `Audit.Reporter.Accounted` | internal/audit/reporter.go:252-290 | accepted = reported + in flight + queued + overflowed; the drop counter is exactly the events lost; the cap holds |
| `AuditFifo.RunInv` | internal/audit/reporter.go:444-504 | delivered, in-flight and queued events stand in acceptance order in every run, each accepted event in exactly one place |
| `AuditFifo.GiveBackCuts` | internal/audit/reporter.go:473-491 | giving a batch back cuts one contiguous piece out of that sequence, and that piece is what overflowed |
| `GoSlice.Append` | internal/audit/reporter.go:482-488 | append on overlapping views: in place within the capacity, a copy beyond it |
| `Audit.ResolveSizes` | internal/audit/reporter.go:157-192 | explicit sizes win up to the panel's limit of 500, or 200 on a native panel; otherwise 50 and 5000, or 200 and 50000 when reporting all |
| `GateHistory.History` | internal/kernel/singbox/conntracker.go:352-431 | while nothing closes, an address is admitted exactly when fewer than `limit` smaller addresses had tried before its own first attempt |
| `GateHistory.SameAnswer` | internal/kernel/singbox/conntracker.go:352-431 | every repeated attempt gets the first answer |
| `GateHistory.SmallestAdmitted` | internal/kernel/xray/dispatcher.go:272-359 | the `limit` smallest addresses get in, in any order of arrival |
| `GateHistory.LargerLimitAdmitsMore` | internal/kernel/xray/dispatcher.go:272-359 | a larger limit, or none, admits a superset |
| `GateHistory.KnownFillsUp` | internal/kernel/singbox/conntracker.go:352-431 | below any address the admitted ones are all that tried, or already `limit` many |
| `GateHistory.LimitBoundsIff` | internal/kernel/singbox/conntracker.go:402-430 | the number of admitted addresses stays within the limit if and only if no more than that many ever tried, or the first `limit` to arrive precede all later ones |
| `GateHistory.BoundAtIff` | internal/kernel/xray/dispatcher.go:342-358 | the same at a given moment at which exactly `limit` addresses have tried |
| `GateHistory.EverybodyInWithinLimit` | internal/kernel/singbox/conntracker.go:411-413 | as long as no more than `limit` addresses have tried, all of them are in |
| `GateHistory.LimitCanBeExceeded` | internal/kernel/singbox/conntracker.go:402-430 | a concrete excess: falling arrivals all pass |
| `DeviceGate.LessIff` | internal/kernel/singbox/conntracker.go:421-421 | the order of the addresses is that of strings: at the first place where two part, the earlier one ends or has the smaller character |
| `DeviceGate.AmongFirst` | internal/kernel/singbox/conntracker.go:415-430 | sorting and scanning the first `limit` entries decides by rank |
| `DeviceGate.RankIsIndex` | internal/kernel/xray/dispatcher.go:342-358 | the index in a sorted list without repetitions is the number of smaller elements |
| `DeviceGate.SortSorted` | internal/kernel/singbox/conntracker.go:415-421 | the sort used by that scan sorts |
| `GateRuns.SingBoxAttempts` | internal/kernel/singbox/conntracker.go:232-348 | the sing-box tracker, driven through any attempts, decides as the history theorem says, starting from the user's open addresses plus the panel's if its list is fresh and names the user, and from the open addresses alone if it is stale or does not |
| `GateRuns.XrayAttempts` | internal/kernel/xray/dispatcher.go:105-173 | so does the xray dispatcher, where only TCP registers |
| `ConnTracker.ConnTracker.CheckDeviceGate` | internal/kernel/singbox/conntracker.go:352-431 | rejects by rank over the addresses of the user's counters together with the panel's if the panel's list names the user and is at most 60 s old, and over the counters' alone otherwise; never without a limit |
| `ConnTracker.ConnTracker.LocalAreOpen` | internal/kernel/singbox/conntracker.go:352-366 | the addresses of a user's counters are exactly those of its open connections |
| `ConnTracker.ConnTracker.KnownIsListed` | internal/kernel/singbox/conntracker.go:371-410 | what the gate knows in either case |
| `ConnTracker.ConnTracker.ClearGlobalDevices` | internal/kernel/singbox/conntracker.go:200-206 | the panel's list goes |
| `ConnTracker.ConnTracker.RoutedConnection` | internal/kernel/singbox/conntracker.go:232-290 | check and registration: refused without a trace, or wrapped and counted |
| `ConnTracker.ConnTracker.UpdateGlobalDevices` | internal/kernel/singbox/conntracker.go:184-198 | the panel's devices and their time are replaced, the counters stay a recount |
| `ConnTracker.ConnTracker.Wrap` | internal/kernel/singbox/conntracker.go:257-290 | a new connection keeps every user's counters equal to a recount |
| `ConnTracker.ConnTracker.Close` | internal/kernel/singbox/conntracker.go:696-705 | only the first close counts, and the counters remain a recount |
| `ConnTracker.ConnTracker.SetUserMap` | internal/kernel/singbox/conntracker.go:172-181 | a user-map swap keeps existing counters and adds empty ones |
| `ConnTracker.ConnTracker.GetUserTraffic` | internal/kernel/singbox/conntracker.go:456-478 | the walk over users reports exactly the addresses and the number of open connections that a walk over all connections would, and the byte counters of the users that have any |
| `ConnTracker.ConnTracker.Transfer` | internal/kernel/singbox/conntracker.go:630-694 | the bytes of a connection go to its user's counters and disturb nothing else |
| `ConnTracker.OneLess` | internal/kernel/singbox/conntracker.go:53-61 | one connection less in one user's recount |
| `ConnTracker.RemovalCounts` | internal/kernel/singbox/conntracker.go:53-61 | what removeConn must leave in the maps, without zero entries |
| `XrayDispatcher.LimitDispatcher.CheckDeviceLimit` | internal/kernel/xray/dispatcher.go:272-359 | decision by rank, registration of TCP only, at most an empty entry left behind |
| `XrayDispatcher.LimitDispatcher.KnownAreOpen` | internal/kernel/xray/dispatcher.go:272-359 | for a name with a limit the addresses it decides over are exactly those of its open TCP links |
| `XrayDispatcher.LimitDispatcher.SlowPath` | internal/kernel/xray/dispatcher.go:317-359 | the part under the write lock |
| `XrayDispatcher.LimitDispatcher.Dispatch` | internal/kernel/xray/dispatcher.go:105-123 | a link refused by xray gives its reference back; otherwise the tables remain a recount of the open TCP links |
| `XrayDispatcher.LimitDispatcher.TrackLink` | internal/kernel/xray/dispatcher.go:159-173 | one more open link |
| `XrayDispatcher.LimitDispatcher.CloseLink` | internal/kernel/xray/dispatcher.go:395-407 | only the first close releases, and the tables remain a recount |
| `XrayDispatcher.LimitDispatcher.DelConn` | internal/kernel/xray/dispatcher.go:362-387 | what one release changes in which table |
| `XrayDispatcher.LimitDispatcher.GetConnectionState` | internal/kernel/xray/dispatcher.go:219-265 | the report of some order of walking the two tables: nothing that is not open, everything of names that no second limited name of the user shadows, and exactly what is open if no address is shadowed |
| `AliveReport.ExactIff` | internal/kernel/xray/dispatcher.go:227-261 | the report is exact in every walk order if and only if no limited name's address is missing from another limited name of the same user and from its unlimited ones |
| `AliveReport.ShadowedIsLost` | internal/kernel/xray/dispatcher.go:227-240 | otherwise some walk order loses an open address |
| `XrayLimits.UpdateDispatcherLimits` | internal/kernel/xray/xray.go:781-803 | the two names of each user, with number and limit, handed to the dispatcher |
| `XrayLimits.TwoNamesEach` | internal/kernel/xray/xray.go:792-800 | each user is known by exactly its built name and its UUID, with its own number and limit under both |
| `XrayLimits.EmailEntriesAreExact` | internal/kernel/xray/config.go:237-241 | as long as connections come in under built names only, the report is exact in every order, the second names notwithstanding |
| `XrayLimits.BothNamesLose` | internal/kernel/xray/xray.go:792-800 | a limited user connected under both names from two addresses loses one of them in some walk order |
| `XrayLimits.LimitAfterUnlimitedLeaks` | internal/kernel/xray/dispatcher.go:362-387 | a user that was served without a limit and then gets one: with nothing open, its old address keeps the place and a new one is turned away |
| `XrayDispatcher.LimitDispatcher.UpdateLimits` | internal/kernel/xray/dispatcher.go:195-201 | new names and limits; the tables remain a recount as long as names with entries keep their class |
| `XrayDispatcher.CloseUndoesOpenIff` | internal/kernel/xray/dispatcher.go:362-387 | a close undoes its open in both tables if and only if the user is not limited with a leftover unlimited entry |
| `XrayDispatcher.CloseKeeps` | internal/kernel/xray/dispatcher.go:362-387 | a close keeps both tables a recount while classes are fixed |
| `XrayDispatcher.OpenKeeps` | internal/kernel/xray/dispatcher.go:105-173 | so does an open |
| `Mailbox.NodeMailbox.Apply` | internal/controlplane/mailbox.go:71-129 | the box after each kind of event, acceptance, and when a wake-up is sent |
| `Mailbox.AddDeltaShows` | internal/controlplane/mailbox.go:109-121 | after an "add" on a full list every number shows its last entry in the delta, otherwise its old one, in its old place, and the box is otherwise as before but dirty |
| `Mailbox.RemoveDeltaShows` | internal/controlplane/mailbox.go:109-121 | after a "remove" exactly the users whose numbers are not listed remain, in their order |
| `Mailbox.DeltaNotApplied` | internal/controlplane/mailbox.go:109-121 | an empty delta changes nothing; one with another action word or without a full list leaves the list and asks for a reconcile |
| `Mailbox.NodeMailbox.DrainIfReady` | internal/controlplane/mailbox.go:140-168 | what is handed over and what stays |
| `Mailbox.NodeMailbox.SeedBaseline` | internal/controlplane/mailbox.go:57-67 | the baseline never overrides newer state |
| `Mailbox.NodeMailbox.MarkReady` | internal/controlplane/mailbox.go:47-52 | ready, with a wake-up |
| `Mailbox.RunInv` | internal/controlplane/mailbox.go:71-168 | for any interleaving, what was told plus what is dirty is the fold of all events, and accepted operations are delivered once and in order |
| `Mailbox.DrainCatchesUp` | internal/controlplane/mailbox.go:140-168 | after a drain the service knows what handling every event would have left, and reconciles exactly if a delta was not applied |
| `Mailbox.RefusedIffFull` | internal/controlplane/mailbox.go:91-102 | an operation is refused exactly when 128 wait, and then nothing changes |
| `MailboxWakeup.NoLostWakeup` | internal/controlplane/mailbox.go:123-138 | a ready mailbox with work has a token, a producer about to notify, or a consumer about to drain, in every interleaving |
| `MailboxWakeup.RestMeansDelivered` | internal/controlplane/mailbox.go:123-168 | when none of these remain, everything has been delivered |
| `MailboxWakeup.FinishRests` | internal/controlplane/mailbox.go:131-138 | from anywhere that rest is reached within the owed notifications and three steps |
| `MailboxWakeup.Unchanged` | internal/controlplane/mailbox.go:123-128 | an event asks for a wake-up exactly when it leaves work |
| `MailboxWakeup.SpuriousDrain` | internal/controlplane/mailbox.go:140-168 | a drain without work hands over and changes nothing |
| `UserDelta.ApplyUserDelta` | internal/controlplane/mailbox.go:263-299 | the in-place edit is the overlay for add, the subtraction for remove, and no change for another action |
| `UserDelta.Merge` | internal/userstate/controller.go:133-159 | the rebuilt list is the same overlay |
| `UserDelta.Subtract` | internal/userstate/controller.go:162-180 | the rebuilt list is the same subtraction |
| `UserDelta.BothAgree` | internal/userstate/controller.go:133-159 | on a base of unique numbers both implementations of an add delta return the same list, unique, and a second application changes nothing |
| `UserDelta.BothAgreeOnRemoval` | internal/userstate/controller.go:162-180 | so do both implementations of a remove delta, on any base |
| `Users.OverlayShape` | internal/controlplane/mailbox.go:263-281 | positions and uniqueness are kept; each number shows its last entry of the delta, else its old one |
| `Users.OverlayIdempotent` | internal/controlplane/mailbox.go:263-281 | applying an add delta twice is applying it once, also with repeated numbers |
| `Users.OverlayRebuilds` | internal/userstate/controller.go:139-148 | rebuilding a unique list gives it back |
| `Users.WithoutMembers` | internal/userstate/controller.go:173-178 | exactly the unlisted users remain |
| `Users.WithoutOrder` | internal/controlplane/mailbox.go:282-293 | and they remain in their order |
| `Users.WithoutIdempotent` | internal/controlplane/mailbox.go:282-293 | removing twice is removing once |
| `Orchestrator.BackoffDoublesUpToCap` | internal/machine/machine.go:100-115 | 15 s doubled per attempt up to 5 min, that is 15, 30, 60, 120, 240 and then 300 s; neither 64-bit wrap-around nor the shift cap ever shows |
| `Orchestrator.BackoffGrows` | internal/machine/machine.go:100-115 | the wait grows with the attempt and never falls below 15 s |
| `Orchestrator.Machine.Claim` | internal/machine/machine.go:196-214 | a node that runs or is parked is left alone, another one gets a handle |
| `Orchestrator.Machine.RecordFailure` | internal/machine/machine.go:271-283 | count, restart of the count after a stable run, and next retry; the next row says what they add up to |
| `Discovery.FailuresAddUp` | internal/machine/machine.go:255-297 | in every run a node has a failure record exactly if its last exit was a failure and no discovery has dropped it since; the count is the length of the streak, in which each failure but the first came from a goroutine that failed within 60 s of its launch; and the node is parked until 15 s, 30 s, 1, 2, 4 or 5 min after the last one, by that length |
| `Orchestrator.Machine.ClearFailure` | internal/machine/machine.go:294-297 | the node's backoff state goes |
| `Orchestrator.Machine.UnregisterNode` | internal/machine/machine.go:598-610 | the entry under the node's number goes |
| `Orchestrator.Machine.TakeHandle` | internal/machine/machine.go:345-353 | the handle goes out of the table and is returned |
| `Orchestrator.Machine.CollectUnwanted` | internal/machine/machine.go:403-428 | exactly the unwanted nodes with a handle or a failure, each once |
| `Discovery.SingleInstance` | internal/machine/machine.go:196-266 | a node has at most one goroutine that still holds its handle, hence at most one live service, in every interleaving |
| `Discovery.SuccessorKept` | internal/machine/machine.go:598-610 | an exiting goroutine never removes a successor's handle |
| `Discovery.OnlyWantedAfterDiscovery` | internal/machine/machine.go:387-436 | from a completed discovery until the next begins, handles, failures and goroutines belong to wanted nodes |
| `Discovery.StopsOnlyUnwanted` | internal/machine/machine.go:429-432 | no wanted node is stopped, and a stopped one is passed only when its service has ended |
| `Discovery.NoStaleHandle` | internal/machine/machine.go:598-610 | no handle outlives its goroutine's own removal |
| `Discovery.WaitEnds` | internal/machine/machine.go:345-362 | stopNode's wait always can end, by at most four steps of that goroutine |
| `Discovery.StaysParked` | internal/machine/machine.go:202-208 | a failed node stays down until its window has passed, through any number of discoveries |
| `Discovery.FailureParks` | internal/machine/machine.go:255-283 | a failure leaves the node without handle and parked for 15 s to 5 min |
| `Discovery.RetriedAfterWindow` | internal/machine/machine.go:196-214 | a discovery starts a wanted node exactly if no goroutine holds it and its window has passed |
| `Discovery.RunInv` | internal/machine/machine.go:196-436 | the invariant behind these, over every run |
| `Limiter.Limiter.UpdateUsers` | internal/limiter/limiter.go:31-60 | the users by number, an index of exactly the limited ones, and the removed numbers |
| `Limiter.Limiter.GetDeviceLimitByUUID` | internal/limiter/limiter.go:79-84 | the indexed limit |
| `Limiter.LimitIsNaive` | internal/limiter/limiter.go:51-58 | on unique users the index answers like a search through the list |
| `Limiter.NaiveMeans` | internal/limiter/limiter.go:51-84 | that is each user's own positive device limit, and 125000 bytes/s for each Mbit/s of its own positive speed limit |
| `Limiter.RateOf` | internal/limiter/speedtracker.go:68-76 | 125000 bytes/s per Mbit/s, burst equal to it: the 64 KiB floor never applies |
| `Limiter.FreshRate` | internal/limiter/speedtracker.go:124-134 | a bucket built on demand gets the same rate as a refreshed one: its extra cap never applies |
| `SpeedTracker.SpeedTracker.UpdateBuckets` | internal/limiter/speedtracker.go:47-98 | buckets stay exactly for users still limited, as the same objects with the new rate, one per user |
| `SpeedTracker.SpeedTracker.GetLimiter` | internal/limiter/speedtracker.go:103-148 | builds a bucket on demand without changing any answer |
| `SpeedTracker.SpeedTracker.AnswerIsNaive` | internal/limiter/speedtracker.go:103-148 | on unique users the throttle is the one of a search through the list, whichever path built the bucket |
| `SpeedTracker.SpeedTracker.HasLimitsTells` | internal/limiter/speedtracker.go:150-153 | HasLimits is true exactly if some UUID was asked for while its user was limited, and that user has been limited in every list since; so it implies a limited user, but not conversely |
| `SpeedTracker.LimitNotAskedFor` | internal/limiter/speedtracker.go:150-153 | such a case: a limited user that has not connected |
| `UserState.Controller.Replace` | internal/userstate/controller.go:78-109 | new list and hash, indexes in step, the previous snapshot and the removed numbers |
| `UserState.Controller.Restore` | internal/userstate/controller.go:111-130 | the snapshot's list and hash, indexes in step |
| `UserState.Controller.TryAndRollBack` | internal/userstate/controller.go:78-130 | Replace, any lookups, then Restore leave list, hash and every device-limit and rate answer as before |
| `UserState.SharedUuidIsAmbiguous` | internal/limiter/limiter.go:51-58 | with a shared UUID the answer depends on map order, so uniqueness is needed |
| `SingBox.UserDiff` | internal/kernel/kernel.go:124-146 | the two lists of additions and removals |
| `SingBox.DiffTransforms` | internal/kernel/kernel.go:124-146 | removing the one and overlaying the other turns the old number-to-UUID map into the new one |
| `SingBox.DiffEmptyIff` | internal/kernel/kernel.go:124-146 | both are empty exactly when the maps agree |
| `SingBox.SingBox.AddUsers` | internal/kernel/singbox/singbox.go:464-492 | adds the unknown numbers if the inbounds can be rebuilt |
| `SingBox.SingBox.RemoveUsers` | internal/kernel/singbox/singbox.go:496-526 | removes the listed numbers if the inbounds can be rebuilt |
| `SingBox.SingBox.UpdateUsers` | internal/kernel/singbox/singbox.go:529-554 | sets the whole list, without a rebuild when nothing differs |
| `SingBox.SingBox.Start` | internal/kernel/singbox/singbox.go:97-170 | the new state after a start; the row below says what it is |
| `SingBox.StartMeans` | internal/kernel/singbox/singbox.go:139-145 | a start that does not fail leaves the kernel running with exactly the given users, attributed by them; a failed one leaves everything as it was |
| `SingBox.ReloadMeans` | internal/kernel/singbox/singbox.go:203-338 | so does a reload, which fails on a stopped kernel |
| `SingBox.AddMeans` | internal/kernel/singbox/singbox.go:464-492 | the users that are there stay in front, the unknown numbers follow in the order of the list, and the count is theirs; it fails exactly on a stopped kernel or if a needed rebuild fails |
| `SingBox.RemoveMeans` | internal/kernel/singbox/singbox.go:496-526 | exactly the unlisted users stay, in order, and the count is that of the others |
| `SingBox.UserMapKeys` | internal/kernel/singbox/singbox.go:701-707 | exactly the UUIDs of the list are attributed |
| `SingBox.UserMapAt` | internal/kernel/singbox/singbox.go:701-707 | each to the last user that has it |
| `SingBox.SingBox.Reload` | internal/kernel/singbox/singbox.go:203-338 | users follow a successful reload |
| `Service.Service.ApplyUserUpdate` | internal/service/user_adapter.go:87-117 | desired state, kernel update, restart on failure, rollback of list and hash if that fails too |
| `Service.Service.ApplyAddDelta` | internal/service/user_adapter.go:127-170 | early removals, merged desired state, add, fallback, rollback of list and hash |
| `Service.Service.ApplyRemoveDelta` | internal/service/user_adapter.go:172-201 | filtered desired state, removal, fallback, rollback of list and hash |
| `Service.Service.ApplyChanges` | internal/service/kernel_adapter.go:40-68 | reload, else restart; stop without users |
| `UserSync.RunsAgree` | internal/service/user_adapter.go:87-205 | while sing-box runs its number-to-UUID map is the desired one, after any events and failures that avoid the one unsafe case |
| `UserSync.AddDeltaAgreesIff` | internal/service/user_adapter.go:127-170 | an add delta ends in agreement if and only if: the add works and every rewritten number was removed early, or it fails and the fallback works or nothing was removed early |
| `UserSync.RemoveDeltaAgrees` | internal/service/user_adapter.go:172-201 | a remove delta always ends in agreement, and is undone only if both attempts fail |
| `UserSync.FullUpdateAgreesIff` | internal/service/user_adapter.go:87-117 | a full update ends in agreement unless everything fails, and then nothing has changed |
| `UserSync.UnexpectedBreaks` | internal/service/user_adapter.go:142-166 | the unsafe case always breaks the agreement |
| `UserSync.SilentDisagreement` | internal/service/user_adapter.go:142-160 | a concrete one: a failed early removal of a changed UUID, then an add that reports success |
| `UserSync.NoChangeIsSafe` | internal/service/user_adapter.go:142-166 | a delta without changed UUIDs is safe whatever fails |
| `UserSync.AllEarlyIsSafe` | internal/service/user_adapter.go:142-166 | so is one whose early removals all work, unless both later attempts fail |
| `UserSync.Repaired` | internal/service/user_adapter.go:87-117 | from every state, a full list or configuration that gets through ends in agreement; with a configuration, a non-empty list and a kernel that could be updated or started, it ends with a running kernel that shows exactly the desired users |
| `UserSync.RunsIff` | internal/service/user_adapter.go:87-201 | for each event, when the kernel runs afterwards: it stops only when told to or by a configuration that finds no users, and starts only with a configuration, users, and a start that works |
| `UserSync.StartRuns` | internal/service/user_adapter.go:95-110 | a stopped kernel that is started runs with exactly the desired users; a start that fails undoes the list |
| `UserSync.KeepsRunning` | internal/service/kernel_adapter.go:40-68 | over any run without these two events a running kernel keeps running, whatever fails |
| `UserSync.FullUndoneIff` | internal/service/user_adapter.go:97-116 | when a full list and its hash go back to the old ones, and that they are the new ones otherwise |
| `UserSync.AddDeltaUndoneIff` | internal/service/user_adapter.go:127-170 | the same for an add delta |
| `UserSync.RemoveDeltaUndoneIff` | internal/service/user_adapter.go:172-201 | and for a remove delta |
| `NodeOps.Executor.Handle` | internal/nodeops/executor.go:58-65 | without an ID nothing; a remembered ID is answered without the runtime; another one is executed |
| `NodeOps.NewRequestExecuted` | internal/nodeops/executor.go:58-75 | a request whose ID is not among the last 128 executed ones is executed, and its own answer is remembered and sent; without request or ID nothing happens |
| `NodeOps.Executor.CompleteResult` | internal/nodeops/executor.go:215-230 | the first result of an ID stays; beyond 128 the oldest is forgotten |
| `NodeOps.Executor.OrderMatchesResults` | internal/nodeops/executor.go:215-230 | the order lists the cached IDs, each once, at most 128 |
| `NodeOps.ReplayAnsweredAsBefore` | internal/nodeops/executor.go:58-65 | a replay of any of the last 128 executed requests gets that request's first result and executes nothing |
| `NodeOps.ExecutedOncePerWindow` | internal/nodeops/executor.go:58-65 | one ID is executed twice only with at least 128 other executions between |
| `Base36.FormatInt36` | internal/kernel/singbox/conntracker.go:437-450 | the text reads back as the number for every n in [0, 2^63), is the shortest numeral, and the 13-byte buffer is never underrun |
| `Base36.ShortestUnique` | internal/kernel/singbox/conntracker.go:437-450 | equal values have equal shortest numerals |
| `Base36.TextsDistinct` | internal/kernel/singbox/conntracker.go:433-450 | two counters share a text exactly when they are equal or have both wrapped below zero |
| `Base36.LargestFills` | internal/kernel/singbox/conntracker.go:437-450 | the largest counter needs all 13 bytes |
| `Base36.DrawAll` | internal/kernel/singbox/conntracker.go:433-435 | connection IDs drawn before the wrap are pairwise different |

## Left out

- Transports, JSON and YAML coding, ETags and reconnect loops: the sink and the panel are steps that may fail or lose an answer; the spool's JSON is a value that round-trips.
- `Alive`, `Online` and metrics fields of a report: only `Traffic` is stable across replays, because the alive-IP buffer is reused.
- SettlementProof.SucceedInv: an orphan's clear and the new controller's file operations are one step each, though they hold different locks; a new service starts only after the old one has stopped, as the source has it.
- SettlementProof.CrashInv: a restart that cannot write the directory fails closed in `NewDurable`; the model has no step for the refused start, and `SpoolCoupling` shows that the slot's contents always load.
- Tracker.Tracker.Process: byte counters are unbounded integers, 64-bit wrap-around is not modelled; speeds, totals and alive addresses are not part of it.
- Limiter.RateOf: overflow of `SpeedLimit * 1000000` beyond 64 bits is not modelled; token-bucket timing belongs to golang.org/x/time/rate, which is not part of this model.
- SpeedTracker.SpeedTracker.GetLimiter: sequential calls only; a lookup racing with `Replace` is not modelled.
- Audit.Reporter.Observe: rule matching, target normalisation and random IDs are inputs; one flusher at a time, as in the code.
- XrayDispatcher.LimitDispatcher.CheckDeviceLimit: the hand-over from the read lock to the write lock is one step; `ResetConns` is not modelled.
- XrayDispatcher.LimitDispatcher.Dispatch: requires the consistent state, in which a name with entries keeps its limited or unlimited class; `CloseUndoesOpenIff` says exactly what a class change breaks.
- XrayLimits.UpdateDispatcherLimits: the construction of a name from a number is an injective parameter; which name a connection bears is decided in xray-core, which is not part of this model.
- ConnTracker.ConnTracker.RoutedConnection: rate limiting, zero-copy byte counting, forced closing through `connMap` and the audit hook of a connection are not modelled; the packet variant has the same gate and counters.
- Mailbox.NodeMailbox.Apply: node specifications have two fields here; an ops request without its arguments; deep copies are values.
- Mailbox.DrainCatchesUp: ends at the drained state; a delta that removes the last user yields a nil slice (internal/controlplane/mailbox.go:292), which the service ignores (internal/service/service.go:370-372). A mailbox never marked ready, as when the first snapshot has no configuration, delivers nothing.
- Discovery.SingleInstance: mailboxes and status channels of nodes are not part of the tables, so the gap between the two sections of `unregisterNode` is not modelled; `stopAll` only cancels, and a goroutine may leave at any time here.
- SingBox.SingBox.Reload: rebuilding inbounds, rules and certificates is one step that may fail; what the inbounds hold after a failed rebuild is not modelled.
- Service.Service.ApplyUserUpdate: the xray kernel's user bookkeeping and the SHA-256 change hashes, which are opaque strings here.
- UserSync.Repaired: the hash comparison that may suppress a repeated full list (internal/service/service.go:373-375) is outside these operations.
- NodeOps.Executor.Handle: requests are handled one after the other, as the service does; the operations themselves are one opaque answer.
- Kernel configuration builders, certificates, DNS, geo data, metrics, health endpoint, logging, CLI: input/output or easy members only.
