# WaterNet: a verified model

WaterNet controls a water network: pump groups with failover and maintenance lockout, a dispatch queue, isolation
valves with water-hammer protection, a sampling quota, cumulative flow meters, and a small file store with append-only
logs and rotated snapshots. Almost all of it is mutable state behind mutexes plus logs that other state must agree
with. This project models those state machines and proves what they keep.

Check it with `dafny verify dfyconfig.toml`.

## How it is built

- Objects the Go code updates in place (`Group`, `Unit`, `Station`, `OrderQueue`, `Valve`, `Guard`, the executors, the
  ledgers, `FileStore`, the logs) are classes. Each method is proved against a specification function on values
  (`Starting`, `FailingOver`, `Taking`, `Draining`, `Stroking`, `Sampling`, `Switching`, ...), and the hard properties
  are lemmas about those functions, over whole runs.
- Concurrency is a state machine over atomic steps, one list of events per interleaving: sessions and their locks
  (`Sessions`), samplers (`Quotas`), gated closes (`Gates`).
- The disk is a map from paths to bytes. A write is a list of effects that can stop between two effects or inside one
  (`Files.After`), which is both the crash and the I/O-error model. Everything that appends to a log takes such a stop,
  so a failed append may leave no byte, some bytes or the whole line behind; `Logs` says what readers then find.
- Lemmas turn automatic induction off: each proof is what its body says.
- MPa, flow and valve position are `real`; times are integer nanoseconds; a slot is the minute number. A missing key of
  a Go map reads as the zero value.

| module | models |
|---|---|
| `PumpState`, `PumpGroup`, `PumpLaws`, `PumpSafety`, `CachedFailovers` | the pump group as value and as object; what each operation does field by field; invariants of every run; failover on live and stale views, and on the cache |
| `OrderQueues`, `Drains`, `Stations` | the priority queue; batches over several groups; the station and its cached view |
| `Receipts`, `Sessions` | the shared receipt record; the executor, its lock per group id, and interleaved sessions |
| `Valves`, `Gates`, `Hammers` | strokes and their normal form; the protection gate; the closing order and the closure peak |
| `Quotas`, `Readings`, `Cumulatives` | quota against rows; slot index against time window; flow totals against history |
| `Lines`, `Files`, `Snapshots`, `Logs` | log bytes, the crashing disk, snapshot rotation, typed logs |
| `Consoles` | sequence numbers and the step order of one control cycle |
| `Results`, `Sequences`, `Strings` | errors as values; searching a sequence; Go string order and `sort.Strings` |

## Where the code and its documentation disagree

The model follows the code. The members named below show the difference on a concrete input or say exactly when the
promised behaviour holds.

- Failover reads the cached statuses (internal/pump/failover.go:25), although its comment (internal/pump/failover.go:21-23)
  and verifycase/verify_test.go:41-50 want the current ones. `CachedFailoverIgnoresRecovery` follows the steps of that test;
  `SameChoiceIff` says when two views lead to one choice; `StaleViewRunsLockedUnit` starts a locked unit from a stale
  view; `FailoverKeepsLockoutIff` says exactly which views can do that, and `CachedLockoutIff` which histories of
  refreshes, locks and failovers. `Tick` shows that the sequential control cycle is safe, because it refreshes first.
- The store promises that no half-written record is left behind (internal/store/files.go:14-16), which holds for
  `WriteBytes` (`WriteIsAtomic`) and not for `AppendLine` (`TornAppend`); the next append is then glued to the remains
  (`AppendAfterTear`). A log reads back as exactly the records whose append succeeded if and only if no failed append
  left a byte (`ReadsRecordsIff`).
- A sample whose append fails gives its reservation back, although the row may be readable (`FailedSampleUndoneIff`,
  `UsageIsReadableRowsIff`).
- `Latest` prefers any readable archive to a newer live file: `LatestMayBeStale`, `LatestIsLastIff`. Reading the live
  file first would always be right: `LiveFirstIsLast`.
- A rollover between a reservation and its append breaks the quota (`RollInFlightExceedsLimit`, `RollConservesIff`), by
  at most what was in flight (`RowsBoundedByCarried`).
- A close whose stroke or peak record fails never releases the gate: `AbandonedCloseBlocksValve`.
- A closure row carries the minute of the window's start: `ClosureRowWellSlottedIff`. Its pressure is computed from the
  position after the stroke (internal/console/handlers.go:419), so for a valve that was in range and that nothing moves
  between stroke and record it is zero: `HandleClose`.
- Receipts are all that is written of a dispatched command, but failover, adjustments, lockouts, trips and the drain of
  the queue change a group without one. Replaying the commands gives the group at every point of a run if and only if no
  such change ever made a difference to it, and its units if and only if none made a difference to those:
  `CommandsGiveGroupIff`.
- Equal issue sequences make the drain depend on arrival order: `ArrivalOrderIrrelevantIff`.
- A vibrating unit is tripped by tripping the first running one; that ends the alarm exactly when no other running unit
  is over the limit: `AdjustClearsIff`.
- `ApplyCommandList` and `SampleBatch` return 0 on an error, although what came before the error stays: their contracts,
  and `BatchKeepsPrefix`.

## What callers must keep

- The executor locks by the name in the command and not by the group object it is given. Receipts of each object follow
  application order, in every interleaving, if and only if no two acceptable commands are sent with one object under
  different names: `OrderAlwaysKeptIff`. Both callers (internal/console/handlers.go:634-641,
  internal/console/api.go:196-198) send a command with the group it names and so keep the condition:
  `MatchedNamesAgree`.

## Model

| member | source | states |
|---|---|---|
| PumpSafety.OneRunningAlways | internal/pump/group.go:52-86 | in every run of adds of fresh ids, starts, stops, locks, releases, trips, commands, adjustments and failovers on any views, at most one unit runs, and the active unit is empty exactly when none runs and names the running one otherwise |
| PumpSafety.LockedNeverRuns | internal/pump/lockout.go:9-22 | no locked unit ever runs in a run whose cached views never show a locked primary as running, and so in every run of live failovers |
| PumpSafety.FailoverKeepsLockoutIff | internal/pump/failover.go:31-64 | failover on an arbitrary view keeps lockout if and only if that view does not show a locked primary as running; the primary branch never looks at the lock |
| PumpSafety.LockoutThroughoutIff | internal/pump/failover.go:31-64 | no locked unit runs at any point of a run if and only if no failover of the run reads a view that shows a locked primary as running |
| CachedFailovers.CachedLockoutIff | internal/pump/failover.go:24-49 | over runs in which failover reads what the last refresh remembered: no locked unit ever runs if and only if no failover happens while the primary ran at the last refresh and is locked |
| CachedFailovers.RefreshThenFailoverIsLive | internal/station/state.go:48-57 | a failover right after a refresh is the live failover, whatever happened before |
| PumpSafety.StaleViewRunsLockedUnit | internal/pump/failover.go:25-49 | start, refresh, lock, failover on the cache: the locked unit runs |
| PumpSafety.StepKeeps | internal/pump/transition.go:52-88 | each of the fourteen operations keeps distinct ids, the one-running invariant and, but for failover on an unsafe view, lockout |
| PumpSafety.LiveChoice | internal/pump/failover.go:31-49 | on live statuses failover picks the primary while it runs, else the least id among unlocked running or standby units, else nothing |
| PumpSafety.LiveFailsIff | internal/pump/failover.go:50-52 | live failover fails exactly when the primary does not run and no unit may run |
| PumpSafety.LiveKeepsHealthy | internal/pump/failover.go:53-60 | live failover leaves the set of units that may run unchanged |
| PumpSafety.LiveIdempotent | internal/pump/failover.go:24-65 | a second live failover chooses the same unit and changes nothing |
| PumpSafety.SameChoiceIff | internal/pump/failover.go:24-65 | two views lead to the same choice if and only if every candidate of only one of them comes after a candidate of both |
| PumpSafety.CachedFailoverIgnoresRecovery | internal/pump/failover.go:21-25 | when a primary recovers after the last refresh, failover on the cache keeps the backup and live failover returns to the primary |
| PumpSafety.ChoiceFollowsUnits | internal/pump/failover.go:31-49 | failover depends on a view only through the statuses of the group's own units |
| PumpSafety.AdjustTripsVibratingUnit | internal/pressure/adjust.go:13-23 | under the one-running invariant an over-limit adjustment stops exactly the vibrating unit, keeps the target, ends the over-limit condition, and a retry with a target in range succeeds |
| PumpSafety.AdjustClearsIff | internal/pump/vibration.go:29-50 | without that invariant, tripping the first running unit ends the alarm if and only if no other unit is over the limit |
| PumpState.RecordRoundTrip | internal/pump/pump.go:101-143 | saving a group to its record and restoring it gives the same group |
| PumpState.StatusesAreNamed | internal/pump/pump.go:123-143 | the four status names are read as the four statuses, any other text as itself |
| PumpLaws.RecordLaw | internal/pump/pump.go:101-120 | the stored record holds every field of group and units under its own name, statuses as their texts |
| PumpLaws.AddLaw | internal/pump/pump.go:49-55 | one unlocked unit in standby without vibration is added at the end; nothing else changes |
| PumpLaws.StartLaw | internal/pump/group.go:52-71 | a start is refused for an unknown or a locked unit and then changes nothing; otherwise the unit runs and is active, other running units stand by, and target, discharge, names, locks, vibrations and every other status stay |
| PumpLaws.StopLaw | internal/pump/group.go:74-86 | the first unit of the id stands by with its lock and vibration kept, the active unit is cleared exactly if it was this one, nothing else changes |
| PumpLaws.TripLaw | internal/pump/vibration.go:61-73 | the same with the status stopped |
| PumpLaws.LockLaw | internal/pump/lockout.go:9-22 | the same with the status maintenance and the lock set |
| PumpLaws.ReleaseLaw | internal/pump/lockout.go:37-52 | the lock is cleared, maintenance becomes standby and any other status stays, as do active unit and settings, whatever persisting returns |
| PumpLaws.ChoiceLaw | internal/pump/failover.go:31-49 | on any view: the first unit while it is shown running, else the least id among unlocked units shown running or in standby, else none |
| PumpLaws.FailoverLaw | internal/pump/failover.go:50-64 | a failover on any view fails and changes nothing, or the chosen unit takes over as in `StartLaw` with every setting, name, lock and vibration kept |
| PumpLaws.CommandLaw | internal/pump/transition.go:46-88 | what each action does to every field of the group and when it is refused, and a refused command changes nothing |
| PumpLaws.CommandListLaw | internal/pump/transition.go:91-98 | a list applies its last command after the others unless one of them was refused |
| PumpLaws.AdjustLaw | internal/pressure/adjust.go:13-23 | above 4.5 on a running unit the first running one is stopped and no target set; otherwise a target between 0 and 1.5 is set and any other refused, with nothing else changed |
| PumpLaws.StatusesLaw | internal/pump/pump.go:83-91 | a group reports exactly its units' ids, each with the status of the last unit that carries it |
| PumpGroup.Group.AddUnit | internal/pump/pump.go:49-55 | appends a fresh unit in standby; ids are not checked |
| PumpGroup.Group.Restore | internal/pump/pump.go:123-143 | the group becomes what the record says, with new unit objects |
| PumpGroup.Group.SetStatus | internal/pump/pump.go:70-80 | the override writes any status and touches neither lock nor active unit |
| PumpGroup.Group.StartUnit | internal/pump/group.go:52-71 | the direct form of starting is the same state transformer `Starting` as the start command |
| PumpGroup.Group.StopUnit | internal/pump/group.go:74-86 | the direct form of stopping is the same transformer as the stop command |
| PumpGroup.Group.RunningUnits | internal/pump/group.go:21-32 | sorted, and exactly the ids of running units |
| PumpGroup.Group.HealthyUnits | internal/pump/group.go:35-49 | sorted, and exactly the ids of the unlocked units that run or stand by, the set that `LiveFailsIff` decides by |
| PumpGroup.Group.LockUnit | internal/pump/lockout.go:9-22 | locks, retires and deactivates the first unit of the id |
| PumpGroup.Group.ClearLockout | internal/pump/lockout.go:37-52 | releases the lock even when persisting then fails, and returns that failure |
| PumpGroup.Group.Trip | internal/pump/vibration.go:61-73 | stops the unit and clears the active unit if it was this one |
| PumpGroup.Group.Apply | internal/pump/transition.go:46-88 | one command as the transformer `Applying`; an error leaves the group as it was |
| PumpGroup.Group.ApplyCommandList | internal/pump/transition.go:91-98 | the fold of `Applying`, stopping at the first error, with the earlier commands kept and the count 0 |
| PumpGroup.Group.Failover | internal/pump/failover.go:24-65 | the loops over units compute `FailingOver` on the given view |
| PumpGroup.Group.Adjust | internal/pressure/adjust.go:13-23 | vibration is looked at before the target is |
| OrderQueues.OrderQueue.Next | internal/dispatch/order.go:58-74 | the scan finds the first pending order of least issue sequence, swaps it to the cursor and serves it; an empty queue changes nothing |
| OrderQueues.QueueKeepsHistory | internal/dispatch/order.go:44-82 | over any interleaving of enqueue, take and reset the backing slice is a permutation of everything enqueued since the reset, its prefix is exactly the served sequence, and the rest is what waits |
| OrderQueues.TakeServesLeast | internal/dispatch/order.go:58-74 | refinement of a bag: a take serves a waiting order of least issue sequence and removes just it, or serves nothing when none waits |
| OrderQueues.DrainSorts | internal/dispatch/order.go:58-74 | draining serves exactly the pending orders in ascending issue sequence |
| OrderQueues.ArrivalOrderIrrelevantIff | internal/dispatch/order.go:64-72 | every permutation of the pending orders is served alike if and only if no two different orders share an issue sequence |
| OrderQueues.AscendingDrainsInPlace | internal/dispatch/order.go:64-72 | orders that arrived ascending are served as they arrived, ties included |
| OrderQueues.StampedServedInIssueOrder | internal/console/api.go:121-126 | commands stamped with the console's numbers are served in the order the numbers were issued, however they arrive |
| Drains.DrainAccounting | internal/station/dispatch.go:12-29 | a drain that stops at order n has applied exactly the first n, consumed the failing one without changing a group, and left the rest; it succeeds exactly when it reaches the end |
| Drains.DrainSplitsByIssue | internal/station/dispatch.go:14-28 | on an error the applied orders are the smaller ones, precisely the larger ones are left, and together with the failing one they are all pending orders |
| Drains.DrainIgnoresArrival | internal/station/dispatch.go:12-29 | two queues with the same distinctly stamped pending orders give the same groups, count, error and leftovers |
| Drains.GroupsDrainApart | internal/station/dispatch.go:20-26 | when no order fails, each group ends as the fold of its own commands in issue order, whatever was interleaved |
| Drains.CountedOrdersReachGroups | internal/station/dispatch.go:14-28 | every counted order named an attached group and the count is their number; the drain stops with a missing group exactly at an order whose group is not attached, so it succeeds only if every order's group is |
| Drains.ServesAttachedOnly | internal/station/dispatch.go:19-22 | an order for a group that is not attached changes nothing and gives the missing-group error, which no other order gives |
| Drains.OneOrderLaw | internal/station/dispatch.go:20-26 | one order changes the first attached group of its name as the command alone does, and no other |
| Drains.BatchStopsAtFirstRefusal | internal/pressure/adjust.go:26-36 | on distinct groups a batch sets exactly the targets before the first refusal, changes no target at it and no group after it |
| Stations.Station.ApplyDispatch | internal/station/dispatch.go:12-29 | terminates, and the groups, the leftover queue, the count and the error are those of `Draining` over the sorted pending orders |
| Stations.AdjustBatch | internal/pressure/adjust.go:26-36 | the loop is `AdjustingAll`, aliasing allowed; a length mismatch changes nothing |
| Stations.LiveViewCoherentIff | internal/station/state.go:20-38 | the station's view shows every attached unit's own status if and only if units that share an id share a status |
| Stations.LiveViewLaw | internal/station/state.go:20-38 | the station's view has exactly the ids of the attached groups, each as the last group that has it reports it |
| Stations.CoherentViewIsLive | internal/station/state.go:60-75 | on a view that shows every unit, failover is the live failover |
| Stations.Station.Refresh | internal/station/state.go:48-57 | the cache becomes the live view, also when persisting fails, and no pump changes |
| Stations.Station.Failover | internal/pump/failover.go:24-29 | failover as the station is wired: on the cached view |
| Consoles.Tick | internal/console/api.go:174-208 | the whole effect of a cycle, whichever step fails: the group, the quota ledger with its window, the bytes of both logs, the cache and the error are those of refresh, rollover on a new day, one sample per valve at its own instant, live failover, evaluation, the decided command and the snapshot, up to the first error; failover on the cache is the live failover |
| Consoles.CycleLaw | internal/console/api.go:188-203 | once refresh, samples, failover and evaluation succeeded, a decided command is applied to the group live failover left and exactly its receipt is appended; a refused one gives its error and appends nothing; without a decision there is no receipt; the cycle succeeds exactly when every step does |
| Consoles.GatheringLaw | internal/console/api.go:174-187 | the quota rolls over exactly on a new day; then each valve in turn gets one row with its zone, 0.40 MPa, 10.0, its instant and that minute, its zone's usage counts it, and the first failure ends this with its own error |
| Consoles.EachQuotaLaw | internal/console/api.go:180-187 | a valve's row is tried only while its zone has quota left after the rows before it |
| Consoles.FreshCacheIsLive | internal/console/api.go:174-190 | right after a refresh, failover on the cache equals failover on the live statuses |
| Consoles.Server.NextSeq | internal/console/api.go:121-126 | consecutive numbers, each once |
| Sessions.Executor.GroupLock | internal/dispatch/session.go:44-53 | the lock of a group id is made on first use and the same ever after |
| Sessions.Executor.Apply | internal/dispatch/session.go:34-42 | transition first, then one receipt if it succeeded; a receipt that fails leaves the transition and whatever bytes were written in place and returns an error |
| Sessions.ReceiptStands | internal/dispatch/session.go:55-63 | the receipt written for a command is the one that carries its id, its group, literally "start", "stop", "set_target" or the received text as action, and "applied" |
| Sessions.OneLockPerGroup | internal/dispatch/session.go:34-53 | in every interleaving all callers for one group id get the same lock and at most one is between lock and unlock |
| Sessions.GroupIsItsHistory | internal/dispatch/session.go:34-42 | in every interleaving of sessions and unrecorded changes, lost receipts and mismatched groups included, a group's state is the fold of its accepted commands and unrecorded changes in their order |
| Sessions.SessionsRunOneUnit | internal/pump/transition.go:46-50 | so concurrent sessions and unrecorded changes together never run two units of a group |
| Sessions.CommandsGiveGroupIff | internal/station/dispatch.go:24-26 | the applied commands alone give the group (or its units) at every point of a run if and only if no change without a receipt ever made a difference to it (or to its units) |
| Sessions.SettingsKeepUnits | internal/pressure/adjust.go:13-23 | targets, discharge pressures and vibration readings never make a difference to the units |
| Sessions.ReceiptsCompleteIff | internal/dispatch/session.go:55-71 | the receipts of a group followed by the request in flight list its applied commands in order if and only if none of its receipts was lost |
| Sessions.Serialisable | internal/dispatch/session.go:34-71 | when each command is sent with the group it names and no unrecorded change made a difference, a group is the replay of its receipts in log order, each standing for the command whose id, group and action it names and the strokes that share the log skipped, followed by at most one applied and unrecorded command, held by the owner of the group's lock; the same for its units alone |
| Sessions.SerialisableFromDisk | internal/dispatch/session.go:55-71 | the same for the bytes of the log file: when no receipt is torn it reads back, and together with the table of requests, which alone knows unit and target of a command id, its replay restores the group |
| Sessions.OrderAlwaysKeptIff | internal/dispatch/session.go:34-53 | requests of each group object are recorded in the order they were applied, from all groups and in every interleaving, if and only if no two acceptable commands (start, stop, or a target in range) are sent with one object under different names |
| Sessions.AgreeingNamesKeepOrder | internal/dispatch/session.go:34-42 | under that condition every reachable state keeps the order, and whatever is applied and unrecorded comes after all that is recorded of its object |
| Sessions.DisagreeingNamesCross | internal/dispatch/session.go:34-36 | for any two such commands at any positions of any request list there are groups and a run in which they are recorded in the opposite order |
| Sessions.MatchedNamesAgree | internal/console/handlers.go:634-641 | sending every command with the group it names meets the condition |
| Sessions.AloneIsApply | internal/dispatch/session.go:34-42 | run alone through the steps of the concurrent model, a request does to group, log and locks what the method does |
| Valves.Executor.Apply | internal/valve/stroke.go:34-77 | the loop is `Stroking`: one receipt per step, stopping at the first failure, with the steps before it kept and every byte it left in the log; valves may repeat |
| Valves.Executor.CloseFully | internal/valve/stroke.go:80-83 | from any position, in range or not: the valve ends shut exactly from at most 1, and the range check refuses exactly beyond 2; a failed receipt does not undo the move |
| Valves.Executor.OpenFully | internal/valve/stroke.go:86-89 | from any position: the valve ends fully open exactly from at least 0, and the range check refuses exactly below -1 |
| Valves.Valve.SetPosition | internal/valve/valve.go:43-52 | stores a position in range and refuses any other, changing nothing then |
| Valves.StrokeNormalForm | internal/valve/stroke.go:38-70 | for non-negative deltas any step list acts on a valve as one clamp min(hi, max(lo, x + c)) of that valve's own steps with 0 <= lo <= hi <= 1; the range check never fails, and only a failed receipt ends the list early |
| Valves.MovingLaw | internal/valve/stroke.go:38-56 | where one step takes a valve in range: up to 1 when opening, down to 0 when closing, nowhere for an unknown action |
| Valves.StrokesWriteReceipts | internal/valve/stroke.go:57-70 | the receipts of a step list are, in order, those of the steps that moved, each with its valve, its action as text and the position its valve had reached |
| Valves.ClampIsMonotoneAndNonExpansive | internal/valve/stroke.go:38-60 | hence step lists never reverse two positions nor move them apart |
| Valves.FullStrokeForgetsStart | internal/valve/stroke.go:80-89 | once a step of at least 1 occurs the result does not depend on the start |
| Valves.StepNeverFailsIff | internal/valve/valve.go:43-52 | a step stays in range from every position if and only if its delta is not negative |
| Gates.Execute | internal/valve/command.go:44-59 | a close is refused exactly while the gate is engaged, and an admitted one leaves the gate engaged whether or not the stroke succeeds; otherwise one whole stroke, from any position |
| Gates.RefusalLaw | internal/valve/command.go:44-50 | only a close is turned away for the gate, exactly while it is engaged; an unknown action always |
| Gates.ClosingLaw | internal/console/handlers.go:405-425 | a refused request leaves the gate alone; an admitted one is counted once, leaves the gate engaged exactly on failure, and touches no other valve's gate |
| Gates.Guard.Protect | internal/hammer/validate.go:25-34 | admits the one caller that finds the gate open, and counts it |
| Gates.GateSafe | internal/hammer/validate.go:25-55 | in every interleaving, failures included, at most one admitted close per valve is outstanding, the gate is engaged exactly then, and admitted closes are released ones plus one exactly when it is engaged |
| Gates.AbandonedCloseBlocksValve | internal/valve/command.go:48-58 | after a failed admitted close no continuation ever admits another close of that valve |
| Gates.AloneIsClosing | internal/console/handlers.go:405-425 | run alone through the steps of the concurrent model, a close request leaves the gate as the handler does |
| Hammers.StepsOf | internal/hammer/plan.go:39-50 | one closing step per planned valve, upstream first; an unknown id is an error |
| Hammers.Protect | internal/hammer/protect.go:12-22 | the two strokes of the plan on the two valves, the number of receipts, and nothing else: other valves of the map and other files stay as they were |
| Hammers.ProtectIsCalled | internal/hammer/protect.go:12-22 | on distinct valves a call is the pair step that the closing order is proved for, as far as receipts can be written |
| Hammers.ProtectingIsCalledAll | internal/hammer/protect.go:12-22 | any number of calls on a map of valves, each cut short anywhere, move the two valves as the pair model says |
| Hammers.ProtectingKeepsOrder | internal/hammer/plan.go:34-50 | so on the valves themselves an ordered start stays ordered through any such calls |
| Hammers.OrderAlwaysKept | internal/hammer/plan.go:34-50 | from an ordered start every intermediate state of any number of calls, each possibly cut short, keeps upstream no more open than downstream |
| Hammers.OneCallOrdersIff | internal/hammer/plan.go:34-50 | from any start a full call leaves them ordered if and only if they were or the upstream valve shuts |
| Hammers.PositionsAfterCalls | internal/hammer/protect.go:12-28 | after k calls each position is max(0, start - k steps) |
| Hammers.FourCallsClose | internal/hammer/protect.go:25-27 | four calls of the two-valve plan shut both valves from any start |
| Hammers.PlanLaw | internal/hammer/plan.go:53-57 | the two-valve plan closes by quarters and its window runs from five seconds before the closure to five after |
| Hammers.RequestRowLaw | internal/hammer/peak.go:20-28 | the row of a close request field by field, and its pressure 0 for every valve closed from at most 1 |
| Hammers.CloseOutcomeLaw | internal/console/handlers.go:405-425 | a close request succeeds exactly on an open gate, a valve at most at 2, and two appends that succeed, with the error of the step that failed |
| Hammers.PeakCoversClosure | internal/hammer/peak.go:13-34 | a recorded closure is in its plan's window, so the peak read back exists and is at least its pressure |
| Hammers.RecordedClosureCovered | internal/hammer/peak.go:20-34 | on a log of whole readable lines a closure recorded last is read back from the bytes, and the peak is at least its pressure |
| Hammers.WindowCoversClosureIff | internal/hammer/plan.go:53-57 | the window covers the closure instant if and only if it starts no later and ends later |
| Hammers.ClosureRowWellSlottedIff | internal/hammer/peak.go:20-29 | a closure row carries its own minute if and only if the closure is at least the lead time into the minute (and, for a negative lead time, no less than that before its end) |
| Hammers.HandleClose | internal/console/handlers.go:405-425 | gate, stroke, peak, release, from any position: what happens to valve, gate and both logs whichever step fails; the gate is released exactly on success, and the answer is the window's peak, or 0 when it cannot be read |
| Quotas.Ledger.Remaining | internal/quota/ledger.go:29-37 | exactly this many single reservations still succeed |
| Quotas.Sampler.Sample | internal/pressure/sample.go:38-63 | attribution, reservation, append, and release of the reservation when the append fails, with the bytes the append left |
| Quotas.Sampler.SampleBatch | internal/pressure/sample.go:66-73 | the fold of `Sampling` up to the first failure, the count 0 on an error, other files untouched |
| Quotas.FailedSampleUndoneIff | internal/pressure/sample.go:43-58 | a failed sample leaves every zone's usage as it was, and readers find what they found before if and only if its append left no byte |
| Quotas.SampleLaw | internal/pressure/sample.go:38-63 | an attributed sample within the quota writes one row with the valve's zone, the given values, the given instant and the minute it falls into, and counts once exactly when the append succeeds; any other sample writes nothing, counts nothing and returns its error |
| Quotas.BatchRowsLaw | internal/pressure/sample.go:66-73 | every row of a batch is that row for the reading of its position |
| Quotas.SamplerLogAgrees | internal/pressure/sample.go:47-54 | on a log grown by any samples and batches, torn nowhere, the bytes read back as the recorded rows, and slot peak, peak of that minute's window and count agree for every zone and minute |
| Quotas.BatchKeepsPrefix | internal/pressure/sample.go:66-73 | a batch records exactly the rows before its first failure, each counted once and only in its own zone, and tears at most one row after them |
| Quotas.BatchReadsBackIff | internal/pressure/sample.go:66-73 | readers find exactly those rows after what was there if and only if the failed append left no byte |
| Quotas.AloneIsSample | internal/pressure/sample.go:38-63 | run alone through the steps of the concurrent model, a sampler does to usage and log what the method does |
| Quotas.UsageAccounted | internal/quota/ledger.go:21-26 | in every run of concurrent samplers, rollovers anywhere: usage plus what was in flight at the last rollover is the rows since then plus what is in flight plus what was given back in vain |
| Quotas.RowsBoundedByCarried | internal/quota/ledger.go:21-26 | so a window gets at most the limit plus what was in flight at its rollover, and exactly that many if and only if the quota is used up, nothing is in flight and nothing was given back in vain |
| Quotas.UsageConserved | internal/pressure/sample.go:38-63 | without a rollover in flight, a zone's usage is its rows since the rollover plus the reservations in flight |
| Quotas.UsageIsReadableRowsIff | internal/pressure/sample.go:52-58 | that usage counts the sampler rows of the window; with closure rows anywhere between them, the bytes of the log read back as exactly what was recorded, sampler rows in order, if and only if no failed append left a byte |
| Quotas.UsageWithinLimit | internal/quota/quota.go:36-55 | usage stays between zero and the limit in every run, rollovers anywhere |
| Quotas.RowsWithinLimit | internal/quota/ledger.go:21-26 | without a rollover in flight a window never gets more rows of a zone than the limit |
| Quotas.RollConservesIff | internal/quota/ledger.go:21-26 | a rollover keeps conservation if and only if no reservation is in flight |
| Quotas.RollInFlightExceedsLimit | internal/quota/ledger.go:21-26 | a rollover between reservation and append lets a window exceed the limit, by the bound above |
| Readings.WindowAggregator.Peak | internal/store/aggregate.go:58-78 | the greatest pressure among exactly the rows of the zone and slot, or not found; an unreadable log is its error |
| Readings.WindowAggregator.Count | internal/store/aggregate.go:81-93 | the number of those rows, or the error of an unreadable log |
| Readings.WindowAggregator.ZoneSlots | internal/store/aggregate.go:96-111 | exactly the slots in which the zone has a row, each once, in the order of their first rows |
| Readings.WindowStore.Peak | internal/pressure/window.go:67-82 | the greatest pressure among exactly the rows inside the half-open window, or an error, also that of an unreadable log |
| Readings.WindowStore.Readings | internal/pressure/window.go:48-64 | exactly the rows of the zone inside the window in log order, unreadable times skipped, or the error of an unreadable log |
| Readings.SlotAgreesWithWindowIff | internal/store/aggregate.go:58-93 | slot and minute window select the same rows for every zone and minute if and only if every row carries the minute of its own time |
| Readings.SlotRowsLaw | internal/store/aggregate.go:58-93 | selection by slot goes row by row, so a row counts as often as it stands in the log |
| Readings.WindowRowsLaw | internal/pressure/window.go:48-64 | the same for selection by window, in log order |
| Readings.PeaksAgree | internal/pressure/sample.go:47-54 | on rows that carry their own minute slot peak equals window peak and the count equals the number of rows in the window |
| Cumulatives.FlowConserved | internal/store/cumulative.go:34-90 | over every history the segment total is the deltas since the last switch, the lifetime total is the closed segments plus the current one, 0 <= base <= total, and base and direction only exist for meters with a total |
| Cumulatives.SaveLoadRoundTripIff | internal/store/cumulative.go:93-130 | saving and loading into an empty ledger preserves every answer if and only if only meters with a total have a direction |
| Cumulatives.HistorySurvivesSaveLoad | internal/store/cumulative.go:93-130 | so after any history of flows and switches every answer survives |
| Cumulatives.SavedRecordLaw | internal/store/cumulative.go:93-111 | the record saved of a meter holds its closed segments as base, its lifetime and its direction, after any history |
| Cumulatives.LoadedRecordLaw | internal/store/cumulative.go:114-130 | a loaded record gives its meter the total, segment and direction it says and leaves other meters alone |
| Cumulatives.LoadedInTurn | internal/store/cumulative.go:114-130 | records take effect in order |
| Cumulatives.DirectionLaw | internal/pressure/direction.go:18-27 | the first flow faces a meter "forward"; a switch needs "forward" or "reverse" and a meter with flow, and otherwise changes nothing |
| Cumulatives.CumulativeLedger.SwitchDirection | internal/pressure/direction.go:18-27 | the base moves to the total and the direction changes only if both checks pass; otherwise nothing changes |
| Cumulatives.CumulativeLedger.AddFlow | internal/pressure/meter.go:22-28 | a negative delta is refused before it reaches the ledger |
| Cumulatives.CumulativeLedger.Save | internal/store/cumulative.go:93-111 | one record per meter with a total, in ascending id order |
| Files.WriteIsAtomic | internal/store/files.go:61-76 | wherever a write stops, the file holds its old or its new content in full, new exactly on success, and no other file but the temporary one changes |
| Files.FileStore.ListNames | internal/store/files.go:130-146 | sorted, and exactly the names in the directory |
| Files.FileStore.ReadLines | internal/store/files.go:106-121 | the non-blank pieces between newlines, in order |
| Lines.AppendReadsBackIff | internal/store/files.go:84-121 | an appended line is read back after all earlier lines if and only if it holds no newline and is not blank |
| Lines.TornAppend | internal/store/files.go:84-103 | a torn append reads as nothing or as the whole line if and only if nothing or all of the line was written |
| Lines.AppendAfterTear | internal/store/files.go:84-121 | after a tear the next line is glued to the remains, unless nothing or everything with its newline was written |
| Logs.RecordLog.Append | internal/store/execution.go:21-27 | the bytes that reach the file wherever the write stops, an error exactly when it does not complete, other files untouched |
| Logs.RecordLog.Load | internal/store/aggregate.go:41-55 | for every content of the file: its non-blank lines decoded in order, or an error when one does not decode |
| Logs.ReadAfterAppend | internal/store/files.go:84-121 | one append cut anywhere: the log still consists of whole lines if and only if nothing or everything was written, and readers find nothing new, the record, or what the cut line decodes to |
| Logs.FailedAppendUnseenIff | internal/store/files.go:84-103 | a failed append goes unnoticed by readers if and only if it left no byte |
| Logs.ReadsRecordsIff | internal/store/files.go:84-121 | after any appends, each cut anywhere, the log reads back as exactly the records whose append succeeded if and only if no failed one left a byte |
| Logs.LoggableCodecExists | internal/store/execution.go:21-27 | the conditions these results put on an encoding can be met: any appends have an encoding that meets them |
| Receipts.StrokeIsNotDispatched | internal/valve/stroke.go:57-64 | the result text of a stroke is never that of a dispatched command, so a reader of the shared log tells them apart |
| Receipts.PositionTextReads | internal/valve/stroke.go:57-64 | the result of a stroke is "pos=", a sign exactly when negative, a whole number without leading zeros, a point and three digits that name a value within half a thousandth of the position |
| Snapshots.SnapshotService.Latest | internal/store/snapshot.go:47-65 | the descending search returns the readable archive of greatest name, else the live file, else nothing |
| Snapshots.LatestWithoutArchive | internal/store/snapshot.go:58-64 | without a readable archive: the live file, an error if it cannot be read, nothing if there is none |
| Snapshots.SnapshotService.Rotate | internal/store/snapshot.go:28-44 | the rotation's effects up to the point where it stops |
| Snapshots.RotateNeverLoses | internal/store/snapshot.go:28-44 | at every stop of a rotation the old snapshot is whole, live or archived, and other archives stay |
| Snapshots.RunKeepsLast | internal/store/snapshot.go:20-44 | over every run of saves and rotations, each cut short anywhere, the last saved state is held in full, live or in the newest archive |
| Snapshots.LatestAfterRotate | internal/store/snapshot.go:28-65 | after a rotation that completes with a newest name, recovery returns the state last saved |
| Snapshots.LatestIsLastIff | internal/store/snapshot.go:47-65 | in general recovery returns the last saved state if and only if there is no live file, or no readable archive, or the newest one holds the same state |
| Snapshots.LatestMayBeStale | internal/store/snapshot.go:47-65 | save, rotate, save: recovery returns the first state |
| Snapshots.LiveFirstIsLast | internal/store/snapshot.go:47-65 | reading the live file first would always return the last saved state |

## Left out

- HTTP routing, JSON, UUIDs, clock reads, SHA-256 and time formatting: records are values, ids and times are parameters. The records that are written are assumed to survive encoding as one line with a visible first byte, and not to be read as themselves with visible bytes glued before them; JSON objects do, for every number that a 64-bit float holds.
- Floating-point rounding and NaN: MPa, flow and position are reals.
- The 64-bit wrap of sequence numbers: they are unbounded.
- `internal/ns`, `internal/policy`, `internal/audit`, `Tank`, receipt summaries, `Preflight` and `IsPrimary`: lookups, branch tables and counters with easy claims only.
- The audit record after a receipt: its result is ignored by the code.
- Saving groups, valves, stations and the quota ledger to their own files: the outcome of the save is a parameter where it is returned to the caller, and the files are not modelled; nor is the copy of the live statuses kept in the station's own file.
- The evaluator and decider of the control cycle: their outcome and the decided command are parameters of `Tick`.
- Read errors of the disk other than a missing file.
- Blank lines are recognised by the six ASCII blanks; Unicode blanks in `TrimSpace` are not modelled.
- The lock around each ledger, lock map and group in the concurrent models: each step is atomic because the code holds that mutex throughout it. The logs have no lock; that an append is placed whole at the end of the file is assumed of the file system.
- Unlocked reads of group fields in console handlers.
- The handler that closes a valve fully without the gate, and progress of the gate after a failed close, which the code does not provide.
- Concurrent enqueues during a drain: `OrderQueues` covers every interleaving of enqueue and take, `Drains` a queue nobody else uses.
- Restoring a valve from its record, which trusts the stored position; the methods therefore take any position.
- Valves.StrokeNormalForm: for non-negative deltas and valves between 0 and 1; `StepNeverFailsIff` says that a negative delta can fail.
- `SetStatus` lies outside the run invariants: it writes any status, whatever the lock and the active unit say.
- PumpState.RecordRoundTrip: for statuses in canonical form, because a status is one of four names or any other text and a name written as other text is read back as the name.
