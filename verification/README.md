# Delivery, effects and permissions of a Workass fleet

A Dafny model of the parts of the Workass daemon where one mistake costs a lost
outcome, a doubled effect or a widened permission, with proofs over every run.

## What is modelled

**Delivery between machines.** A daemon appends numbered events to a log per
entity, compacts it, pushes events and answers syncs from a cursor; other daemons
apply slices, put a notice in a chat, write their cursor and acknowledge.
`Fleetlog` is the log and its retention, `FleetWatcher` one slice applied,
`FleetHome` the home's operations. `FleetDelivery` puts them together as a state
machine whose steps are the durable writes: links drop, duplicate, delay and reorder,
and a crash may fall between any two writes. `FleetGuarantees` proves that no outcome
is lost, that notices are shown once and in order, and that cursors never overtake one
another. `FleetHeadFalls` shows what is lost when a prune moves the head of a log;
`FleetCatchUp` relates the small steps to a whole slice and says when repeated syncs
reach the head. `FleetLocal` is the same delivery inside one machine, where threads
interleave at every lock, and `FleetLocalStrands` what a fan-out turned away may leave
behind; `FleetRetry` is the timers and delays; `NoticeBudget` and `HomeDown` the
window of duplicate notices and the one notice per outage of a machine that cannot be
seen.

**Effects at most once.** `LaneLocks` is the reference-counted map of locks that
deletes and creates its entries; `Mutation` the durable journal on top of it, with
any number of concurrent calls, cancellations and crashes; `MutationOutcomes` what
moves a journal entry, and that a call runs through to its outcome.

**What is served.** `ChatCache` and `ChatCacheRuns` are the replies kept for closed
chats, with their byte budgets and eviction; `WarmSlice` the pages read ahead;
`HistoryPage` the reply bounded by its own bytes; `LeanTools` and `Utf8` the tool
payloads sent as heads and read in chunks; `Downscale` and `DownscaleImage` the
separable area filter, in exact arithmetic.

**Who may do what, and where.** `Permissions` is the ceiling on what an agent
reaches and the limit that crosses links; `FleetId` the names of entities;
`Routing` the sender's choice of machine and the receiver's refusal; `CloseJournal`
the detach journal of a session id that may be reused.

## Where a claim holds only under a condition

Each of these is stated for all inputs, with the condition and a run or an input
outside it.

- The log's head is read back from its file, so a sweep that drops the newest event
  but keeps an older one moves it back and its number is used again
  (`HeadSurvivesIff`). No sweep does that to a log whose events are stamped in order
  and whose exit, if any, is its newest event (`TimelyHeadStays`); the delivery
  guarantees ask that of the appends and nothing of the sweeps. The sweep of an append
  never moves the head (`AppendKeepsHead`). A prune also removes the file of a log
  with no event left and no monitor, and its numbers start again; a log that is
  monitored throughout is never removed (`MonitoredIsKept`), and removing one whose
  watcher has applied anything can lose an outcome (`RemovedLogLosesAnOutcome`).
  Outside the condition outcomes are lost: from every reachable state, a prune that
  moves the head below a watcher's cursor (`FallenHeadLosesAnOutcome`), or moves it at
  all with a watcher that can catch up (`MovedHeadLosesAnOutcome`), has a continuation
  with an exit that watcher never looks at. One job with one exit and a clock that
  steps back once is such a run (`ReusedNumberLosesAnOutcome`).
- A machine is asked to have at most one monitor on an entity: the watcher serves the
  first, the home's acknowledgement advances all (`SecondMonitorLosesAnOutcome`).
- A sync reaches the head only where no hole stands above the cursor (`CatchUpIff`).
- On one machine, a fan-out that finds its monitor refused leaves the rest to the
  retry, and whoever reads the log reads one slice of 256 events and asks no further.
  Both are safe where a retry has yet to read the log (`ConvergesWhenRetried`), and
  more widely where the timer, another fan-out that has not read the log, or a slice
  that ends at the head covers them (`ConvergesWhenCovered`); a chat that refuses
  nothing needs only the short reads covered (`LocalDeliveryConverges`). Each
  turn-away and each short read left uncovered has a continuation, with no further
  append or refusal, that comes to rest behind the log with no timer
  (`UncoveredStrands`). So does every retry of a monitor more than one slice behind
  (`RetryOfALongLogStrands`). Runs of it are `LeftBetweenReadAndAdmission`,
  `OneSliceIsNotTheLog` and `RefusedThenLongLog`.
- The notice window takes for a duplicate what the chat would not (`WindowMergesIff`),
  and reports as handled a notice whose first delivery may still fail: whenever none
  of its identity was delivered inside the window (`HeldIsDelivered`,
  `HeldMayNeverBeDelivered`). An outage is told once under one start
  (`OutageIsToldOnce`); under an earlier one a chat is told again unless the latch
  holds (`LatchedTellsNobody`, `UnlatchedTellsAgain`, `EarlierStartTellsAgain`).
- A summary keeps a call that shows something outside the fold unless the only mark
  was in its input, past the head that leaning left (`MarkedCallIsKeptIff`,
  `MarkPastTheHead`). Detail reads rebuild well-formed text; other bytes may stall a
  reader (`ProgressIff`).
- A page read ahead before a row without an id is never asked for
  (`PagesAreTheRenderersRequests`, `UnnamedRowIsReadInVain`).
- Both page readers agree unless the budget is not positive (`SameRowsIff`).
- An id naming the sender may reach another machine as a bare id
  (`OnlyTheReceiversIdsIff`, `SendersIdCrosses`). A work id is stripped twice, so it
  arrives as its local part only if that does not name the receiver again
  (`WorkIdIsItsLocalPartIff`, `WorkIdLosesTwoNames`); every other id of that shape is
  refused (`NestedIdIsRefused`).

## Model

| member | source | states |
|---|---|---|
| Fleetlog.SinceSound | internal/fleetlog/log.go:248-288 | A slice read from a cursor holds only retained events, in order and above the cursor; when it is truncated, its jump target lies below every retained event |
| Fleetlog.AboveSound | internal/fleetlog/log.go:278-286 | The events read are exactly the retained ones above the cursor |
| Fleetlog.KeptSound | internal/fleetlog/log.go:401-421 | A sweep invents no event and drops no outcome above the lowest acknowledgement |
| Fleetlog.CompactKeepsOrder | internal/fleetlog/log.go:379-447 | A sweep leaves an ordered file whose truncation marker ends right below its first event |
| Fleetlog.AppendKeepsOrder | internal/fleetlog/log.go:202-243 | An append keeps the order and takes the next number after the head |
| Fleetlog.HeadSurvivesIff | internal/fleetlog/log.go:379-498 | A sweep leaves the next sequence number alone if and only if the newest event outlives it or nothing does; otherwise the head, re-read from the file, falls back to an owed outcome |
| Fleetlog.AppendKeepsHead | internal/fleetlog/log.go:202-243 | The sweep that follows an append never moves the head back |
| Fleetlog.TimelyHeadStays | internal/fleetlog/log.go:401-421 | No sweep, whatever its count, age and owed cursor, moves the head of a log stamped in order in which nothing follows an exit |
| Fleetlog.StartsAgainIff | internal/fleetlog/log.go:336-372 | A prune starts a log's numbers again if and only if nobody monitors it and the sweep leaves no event; otherwise it is the sweep |
| Fleetlog.CollectAbove | internal/fleetlog/log.go:278-286 | The read loop returns the first slice's worth of the events above the cursor |
| Fleetlog.CollectKept | internal/fleetlog/log.go:401-421 | The retention loop keeps exactly the events that are young, among the newest, or still owed |
| Fleetlog.EntityLog.Load | internal/fleetlog/log.go:470-498 | The head and first number re-read from the file are those of its contents |
| Fleetlog.EntityLog.ReadSince | internal/fleetlog/log.go:248-288 | A read serves the slice the specification gives, watermarks and truncation included |
| Fleetlog.EntityLog.Sweep | internal/fleetlog/log.go:379-447 | The file after a sweep is the compacted log |
| Fleetlog.EntityLog.Prune | internal/fleetlog/log.go:336-372 | A prune sweeps, and removes the file of a log with no event left and no monitor |
| Fleetlog.EntityLog.Append | internal/fleetlog/log.go:202-243 | The event is numbered after the head, written, and then the file is swept |
| FleetWatcher.SliceStops | cmd/workass/fleet_watcher.go:297-334 | A slice in any order only advances the cursor, adds rows only of events the cursor passed, and ends where nothing stands next in it, or at the very event the chat refused: nothing past that one is shown or applied |
| FleetWatcher.SortedInOrder | cmd/workass/fleet_watcher.go:297-303 | Sorting puts a slice in the order of its numbers and keeps every event |
| FleetWatcher.NextEventIsShownIff | cmd/workass/fleet_watcher.go:537-581 | By kind and payload alone: the next event of a slice, with a chat that admits it, adds one row if and only if it is an unsuppressed process exit, an unsuppressed and settled subagent exit or an attention, and its key, given for each, is not yet held; the cursor takes it and an end consumes the monitor |
| FleetWatcher.NextEventNotAdmitted | cmd/workass/fleet_watcher.go:583-602 | A chat that refuses takes nothing; one that is gone or holds the notice for a duplicate takes the event and adds no row |
| FleetWatcher.Watcher.DeliveryRefused | cmd/workass/fleet_retry.go:26-29 | A refusal is counted against its monitor |
| FleetWatcher.Watcher.DeliveryAdmitted | cmd/workass/fleet_retry.go:42-46 | An admission clears the count |
| FleetWatcher.Watcher.ApplySlice | cmd/workass/fleet_watcher.go:274-334 | Applying one slice moves the monitor, the chat and the refusal count as the specification says, touches no other monitor, and acknowledges exactly a cursor that events moved |
| FleetHome.Home.constructor | cmd/workass/fleet_home.go:79-87 | A home starts with an empty log and no monitors |
| FleetHome.Home.MinAcked | internal/fleetlog/monitors.go:290-302 | Retention is told the lowest acknowledgement over all monitors, or that there is none |
| FleetHome.Home.Append | cmd/workass/fleet_home.go:118-172 | An append writes the log first and pushes once to each watching machine, progress excepted |
| FleetHome.Home.HasExit | cmd/workass/fleet_hosted_work.go:200-214 | The home finds an exit exactly when the first slice of the log holds one |
| FleetHome.Home.ObserveExit | cmd/workass/fleet_process.go:68-95 | An exit is logged and pushed only while none is seen, otherwise nothing changes |
| FleetHome.Home.Prune | internal/fleetlog/log.go:336-372 | A prune sweeps with the owed cursor, and removes the file of a log with no event left and no monitor |
| FleetHome.Home.Register | internal/fleetlog/monitors.go:160-180 | Registering again keeps the row and its cursor |
| FleetHome.Home.Demonitor | cmd/workass/fleet_home.go:270-291 | Dropping a monitor removes that row alone |
| FleetHome.Home.HandleAck | cmd/workass/fleet_home.go:343-364 | An acknowledgement advances every monitor of the machine and moves none back |
| FleetHome.Home.Serve | cmd/workass/fleet_home.go:303-338 | A sync is served from the stated cursor, or the acknowledged one |
| FleetDelivery.SweepDropsOnlyHeard | internal/fleetlog/log.go:401-421 | An outcome dropped by a sweep had been taken by the projection of every monitor registered in time |
| FleetDelivery.AnswerIsTrue | cmd/workass/fleet_home.go:303-338 | A truncated answer skips only events its watcher may pass |
| FleetDelivery.ProjectKeepsChat | cmd/workass/fleet_notice.go:116-164 | A projected event adds at most one row, after every row there is |
| FleetDelivery.StepInv | cmd/workass/fleet_watcher.go:274-357 | Every append, registration, acknowledgement, read, receipt, delivery, cursor write and crash, and every prune that leaves the head and the file, keeps the protocol's invariant over a network that drops, duplicates, delays and reorders |
| FleetDelivery.OrderlyIsRegular | internal/fleetlog/log.go:379-498 | Over any run whose appends are stamped no earlier than the newest event in the log and never follow an exit there, no sweep moves the head |
| FleetDelivery.MonitoredIsKept | internal/fleetlog/log.go:351-360 | A log that somebody monitors throughout is never removed |
| FleetGuarantees.NothingForgotten | cmd/workass/fleet_monitors.go:69-72 | In every run with orderly appends and the log not removed, whatever is swept, an outcome a registered monitor could have heard was taken by its projection or is still in the log |
| FleetGuarantees.CursorsNeverOvertake | cmd/workass/fleet_watcher.go:274-357 | In every run with orderly appends and the log not removed, whatever is swept, acknowledged <= applied <= head for every monitor, and whatever the cursor passed was projected without an error or was no outcome and had left the log |
| FleetGuarantees.AccountIsTrue | cmd/workass/fleet_watcher.go:304-334 | What the guarantees call taken, declined and missed grows only by what those words say: a next event offered to a chat that does not refuse it, a notice that chat has no part in, an outcome that left the log before its monitor registered; and the history is of the events the home appended |
| FleetGuarantees.AccountIsWhole | cmd/workass/fleet_watcher.go:304-334 | And it leaves none of them out |
| FleetGuarantees.HeardOnlyRises | cmd/workass/fleet_home.go:343-364 | What a home has heard of a registered monitor only rises, to each acknowledgement of its machine above it and no other way, though acknowledgements are delayed and reordered |
| FleetGuarantees.RowsExactlyOnceInOrder | cmd/workass/fleet_notice.go:116-175 | In every run with orderly appends and the log not removed, with crashes between a delivery and its cursor write, a chat's rows have distinct keys and ascending numbers, each with the key its event's kind and payload call for, at most one past the cursor |
| FleetGuarantees.NothingPastAnUntakenEvent | cmd/workass/fleet_watcher.go:268-273 | In every run with orderly appends and the log not removed, while an event that was there for a monitor is untaken, as a refused one is, nothing past it is shown, applied, acknowledged on the way or acknowledged at the home |
| FleetGuarantees.NothingMissed | cmd/workass/fleet_home.go:239-268 | A monitor registered before the first event and never dropped misses no outcome |
| FleetGuarantees.NoLostOutcome | cmd/workass/fleet_watcher.go:264-345 | No lost outcome: with orderly appends and whatever is pruned, every outcome is taken or still in the log, and one at or below the cursor was taken and is shown unless it was suppressed or unsettled at the home, declined by the chat or held for a duplicate |
| FleetGuarantees.NoLostOutcomeWhileTheHeadStays | cmd/workass/fleet_watcher.go:264-345 | The same, and cursors in line, in any run in which each prune leaves the head and the file, whatever the order of stamps and kinds |
| FleetHeadFalls.OvertakenForEver | cmd/workass/fleet_watcher.go:304-308 | An event the cursor has passed without its projection is never projected later, in any continuation |
| FleetHeadFalls.FallenHeadLosesAnOutcome | internal/fleetlog/log.go:379-498 | From every reachable state, a prune that moves the head below a recorded watcher's cursor has a continuation with an exit that watcher never takes, at once if no exit is in the first slice kept |
| FleetHeadFalls.RemovedLogLosesAnOutcome | internal/fleetlog/log.go:351-372 | From every reachable state, removing the log of a watcher that has applied anything has a continuation with an exit that watcher never takes, once its monitor is registered again |
| FleetHeadFalls.MovedHeadLosesAnOutcome | internal/fleetlog/log.go:379-498 | From every reachable state, any prune that moves the head can lose an outcome of a watcher with no hole above its cursor, once that watcher has synced |
| FleetDeliveryLimits.ReusedNumberLosesAnOutcome | internal/fleetlog/log.go:379-498 | A concrete run of one job with one exit: its clock steps back between two questions, a sweep drops the newer alone, the exit takes its number, and a watcher already past it never looks at the exit |
| FleetDeliveryLimits.SecondMonitorLosesAnOutcome | cmd/workass/fleet_home.go:343-364 | A concrete run with two monitors on one machine: one acknowledgement advances both, and the outcome leaves the log before the second has heard it |
| FleetCatchUp.UninterruptedSlice | cmd/workass/fleet_watcher.go:274-334 | Uninterrupted, the protocol's small steps do to cursor, chat and network exactly what applying the slice in one go does |
| FleetCatchUp.RoundIsASlice | cmd/workass/fleet_watcher.go:366-442 | With nothing refused, a sync and its answer move the cursor as one round does |
| FleetCatchUp.RoundProgresses | cmd/workass/fleet_watcher.go:366-442 | Short of the head and with no hole above it, a round advances the cursor and opens no hole |
| FleetCatchUp.CatchUpIff | cmd/workass/fleet_watcher.go:315-320 | Repeated syncs reach the head if and only if the cursor is there, or the log is not empty and has no hole above it; a hole left by an owed outcome stops every later sync |
| FleetLocal.RedeliveryMoves | cmd/workass/fleet_retry.go:54-77 | A redelivery that will offer a monitor's next event still will after each of its steps |
| FleetLocal.FanOutMoves | cmd/workass/fleet_process.go:345-406 | A thread that will bring a monitor to its head still will after each of its steps, unless it got there, left the timer armed, was turned away, or read a slice that ends short |
| FleetLocal.StepInv | cmd/workass/fleet_process.go:345-418 | Every interleaving of appends, fan-outs, watches, timers and redeliveries, slices applied one at a time, keeps the local invariant |
| FleetLocal.RowMoves | cmd/workass/fleet_process.go:345-418 | A log grows by its appends alone and by none after its exit, and a monitor is recorded by its watch and applies one event at a time, only where one is offered |
| FleetLocal.PushIff | cmd/workass/fleet_watcher.go:304-334 | A pushed event is applied and acknowledged exactly where it is the next one and the chat admits it; a refusal of it is counted and arms the timer |
| FleetLocal.ReadsFromTheCursor | cmd/workass/fleet_process.go:357-418 | A watch, and a fan-out that finds its monitor behind, read on from what is applied; one with nothing left returns |
| FleetLocal.ListedIff | cmd/workass/fleet_retry.go:54-77 | A redelivery visits every monitor that is behind or whose log may go on, and no other, each from its cursor |
| FleetLocal.SliceIsAlone | cmd/workass/fleet_watcher.go:274-282 | Once a slice has applied an event, no other thread applies, refuses or acknowledges anything until it is done |
| FleetLocal.OfferedIff | cmd/workass/fleet_watcher.go:274-282 | And nothing else keeps a thread from offering its event |
| FleetLocal.RefusedIsNeverOrphaned | cmd/workass/fleet_retry.go:26-77 | In every run with retries open, a refused monitor has its timer armed or a redelivery under way that will offer exactly its next event |
| FleetLocal.ConvergesWhenCovered | cmd/workass/fleet_process.go:345-387 | If every fan-out turned away from a monitor that is behind, and every log read that ends short of its head, leaves the timer armed or another thread that will bring it there, a run at rest with retries open has applied and acknowledged everything, or a timer |
| FleetLocal.ConvergesWhenRetried | cmd/workass/fleet_process.go:357-387 | The same if every fan-out that returns at a standing refusal, and every short read, finds the timer armed or another redelivery that has yet to read this log |
| FleetLocalStrands.UncoveredStrands | cmd/workass/fleet_process.go:357-387 | From every reachable state with retries open, a turn-away or a short read left uncovered has a continuation without append, watch, refusal or stop in which all threads return and the monitor is behind with no count and no timer |
| FleetLocalStrands.RetryOfALongLogStrands | cmd/workass/fleet_retry.go:54-77 | From every reachable state at rest with the timer armed and a monitor more than one slice behind, the retry delivers one slice and, with nothing refused, the rest is left with no count and no timer |
| FleetLocal.LocalDeliveryConverges | cmd/workass/fleet_home.go:138-172 | With a chat that refuses nothing and every short read covered, once all threads have returned every watched monitor has applied and acknowledged its whole log |
| FleetLocal.WholeReadsAreCovered | cmd/workass/fleet_process.go:375-387 | With a chat that refuses nothing, a run in which every read reaches the head meets that condition |
| FleetLocalLimits.LeftBetweenReadAndAdmission | cmd/workass/fleet_process.go:357-367 | A concrete run: an event appended between a retry's read and its admission is left with no fan-out, no count and no timer |
| FleetLocalLimits.OneSliceIsNotTheLog | cmd/workass/fleet_process.go:375-406 | For every log longer than one slice, a monitor registered on it applies one slice and nothing asks for the rest |
| FleetLocalLimits.RefusedThenLongLog | cmd/workass/fleet_retry.go:26-77 | For every number of events above one slice, a run in which the chat refuses the first while the rest come, the retry admits one slice, and the rest is left with no count and no timer |
| FleetRetry.NoOverflow | cmd/workass/fleet_retry.go:33 | No shift of the base delay overflows a 64-bit duration |
| FleetRetry.DelayDoublesToItsCap | cmd/workass/fleet_retry.go:33-36 | The delay doubles from five seconds, is never below it or above five minutes, and never shrinks with another attempt |
| FleetRetry.Retries.constructor | cmd/workass/fleet_watcher.go:157-177 | A watcher starts with no refusal counted and no timer |
| FleetRetry.Retries.DeliveryRefused | cmd/workass/fleet_retry.go:26-40 | A refusal counts, and arms its home's one timer at the delay for its count unless the daemon is stopping or one is armed |
| FleetRetry.Retries.DeliveryAdmitted | cmd/workass/fleet_retry.go:42-46 | An admission forgets the count and leaves the timers |
| FleetRetry.Retries.TakeTimer | cmd/workass/fleet_retry.go:54-64 | A timer fires once and does nothing after the stop |
| FleetRetry.Retries.StopRetries | cmd/workass/fleet_retry.go:98-109 | Stopping clears every timer and keeps every count |
| LaneLocks.LaneLock.constructor | cmd/workass/browser_mutation.go:60-63 | A new entry has no users |
| LaneLocks.Locks.constructor | cmd/workass/browser_mutation.go:55-58 | There are no entries at first |
| LaneLocks.Locks.Arrive | cmd/workass/browser_mutation.go:65-75 | A caller is counted on the map's entry for its lane, created if absent, and no other lane's count changes |
| LaneLocks.Locks.Depart | cmd/workass/browser_mutation.go:79-85 | A caller is uncounted, and the last one deletes the entry |
| LaneLocks.StepCounts | cmd/workass/browser_mutation.go:65-87 | The thread steps change the counts as those critical sections do |
| LaneLocks.StepInv | cmd/workass/browser_mutation.go:65-87 | Arriving, acquiring, releasing and departing keep: each thread refers to the entry now in the map, which counts exactly its threads and is held by exactly the one inside |
| LaneLocks.MutualExclusion | cmd/workass/browser_mutation.go:65-87 | In every run of any number of threads and lanes, at most one thread is inside a lane, though entries are deleted and created again |
| LaneLocks.EntriesCountTheirUsers | cmd/workass/browser_mutation.go:65-87 | In every run, a lane has an entry if and only if a thread is on it, and the entry counts exactly those threads |
| LaneLocks.LanesDoNotBlockEachOther | cmd/workass/browser_mutation.go:37-41 | In every run, a waiter can acquire its lane if and only if nobody is inside that lane |
| LaneLocks.FreeLaneIsOpen | cmd/workass/browser_mutation.go:65-87 | In a state the invariant holds of, a waiter whose lane holds nobody can acquire it; with InsideCanLeave and LeavingCanGo, no lane stays held or waited for for want of a step |
| Mutation.WorksAlone | cmd/workass/browser_mutation.go:37-52 | Two calls of one operation past its digest check are one call, because request and operation fix the lane |
| Mutation.JournaledSound | cmd/workass/browser_mutation.go:249-276 | Recording writes only a first entry, never over another request |
| Mutation.ClaimedSound | cmd/workass/browser_mutation.go:277-291 | A claim makes a pending entry dispatched before anything is sent |
| Mutation.HeardSound | cmd/workass/browser_mutation.go:347-379 | A reply settles an entry only where the journal accepts it |
| Mutation.CrashInv | internal/chat/reducer.go:5955-5981 | A crash and the recovery at boot keep the journal's invariant; what they do to each entry is CrashLeavesAmbiguous |
| Mutation.StepInv | cmd/workass/browser_mutation.go:89-291 | Every step of any number of calls, retries, cancellations and crashes keeps the journal's invariant |
| Mutation.DispatchedAtMostOnce | cmd/workass/browser_mutation.go:89-218 | In every run, an operation is dispatched at most once, and only after its claim is durable |
| Mutation.NoReadbackBeforeTheReceipt | cmd/workass/browser_mutation.go:107-118 | In every run, no call reads a receipt back while another call of the operation is between claim and receipt |
| Mutation.TerminalIsFinal | cmd/workass/browser_mutation.go:166-190 | In every run, a completed or failed entry never changes again and is answered with neither a dispatch nor a readback |
| Mutation.CallersAgree | cmd/workass/browser_mutation.go:160-217 | In every run, no two callers of an operation are told different outcomes, and none is told one the journal does not hold |
| MutationOutcomes.EntryMoves | internal/chat/reducer.go:4308-4408 | Every move of a journal entry and the step that makes it: pending when a fenced and admitted call records it, dispatched by its durable claim, ambiguous by a crash, a cancellation or a reply that cannot be believed, failed or completed by that receipt; anything else leaves it |
| MutationOutcomes.ReceiptIsTakenIff | internal/chat/reducer.go:4360-4408 | The journal takes a receipt that settles an open entry or repeats what a settled one holds, and no other; a lost reply only leaves an open one ambiguous |
| MutationOutcomes.OutcomeWasHeard | cmd/workass/browser_mutation.go:347-368 | Over every run, an entry is completed or failed only if a call of its operation heard the receipt that says exactly that |
| MutationOutcomes.ReceiptSettles | cmd/workass/browser_mutation.go:359-368 | A receipt heard for an unsettled operation settles it so, and its caller is told |
| MutationOutcomes.CrashLeavesAmbiguous | internal/chat/reducer.go:5955-5981 | What had been dispatched when the daemon stopped is ambiguous from the next boot on, over any continuation, until a receipt for it is heard; what had not is as it was |
| MutationOutcomes.CrashEndsEveryCall | internal/chat/reducer.go:5955-5981 | A crash leaves no call and no lane held, and takes back nothing sent or told |
| MutationOutcomes.RefusedIsNeverSent | cmd/workass/browser_mutation.go:120-218 | An operation whose calls the fence or the controller always refuses is never recorded and nothing is sent for it |
| MutationOutcomes.AdmissionIff | cmd/workass/browser_mutation.go:120-132 | The controller decides only of what has not been sent: a fenced call of its own request goes on if and only if it is admitted or its operation is past pending, and is turned away otherwise |
| MutationOutcomes.SendsAreCounted | cmd/workass/browser_mutation.go:141-212 | A step sends one dispatch or one readback of its call's operation, or nothing |
| MutationOutcomes.OneAttempt | cmd/workass/browser_mutation.go:141-218 | A call makes one attempt: whatever comes of it, it returns to its caller, and from then on only gives its lane back |
| MutationOutcomes.SharedLaneIff | cmd/workass/browser_mutation.go:37-52 | Two calls share a lane if and only if both drive the page at hand, both name one tab, or both open a tab for one operation |
| MutationOutcomes.OneCallPerTab | cmd/workass/browser_mutation.go:28-41 | In every run at most one call on a tab is at work, whatever the operations |
| MutationOutcomes.FirstCallIsSent | cmd/workass/browser_mutation.go:89-172 | From every reachable state whose lane is free, a first call that is admitted and answered runs through: sent once, journaled and told its outcome, nothing else changed |
| MutationOutcomes.UnknownIsReadBack | cmd/workass/browser_mutation.go:194-218 | So does a later call of an operation dispatched or ambiguous: it reads the receipt back and sends nothing |
| MutationOutcomes.KnownIsAnswered | cmd/workass/browser_mutation.go:172-193 | And one of a completed or failed operation is answered from the journal, nothing sent or read |
| MutationOutcomes.OtherRequestIsTurnedAway | cmd/workass/browser_mutation.go:233-246 | A call that reuses an operation for another request is turned away and changes nothing, whatever the fence and the controller say |
| ChatCache.StoredScreenBudgeted | cmd/workass/provider_chat_first_screen.go:170-190 | Storing a first screen keeps both counters equal to what is held, both caps and the entry cap |
| ChatCache.DroppedBudgeted | cmd/workass/provider_chat_first_screen.go:296-303 | Dropping a chat keeps them too |
| ChatCache.StoresSliceSound | cmd/workass/provider_chat_first_screen.go:247-285 | Storing a slice keeps them too, and changes no other chat's slice that stays |
| ChatCache.KeptIff | cmd/workass/provider_chat_first_screen.go:247-285 | Whatever order the map is visited in, a slice is kept if and only if it is current, not empty and fits beside the slices it may not evict |
| ChatCache.StoredIff | cmd/workass/provider_chat_first_screen.go:170-190 | A first screen is stored if and only if its chat is closed at that revision, it is at most four mebibytes and fits beside the others in thirty-two; it then answers that request, and nothing else changes |
| ChatCache.CachedScreenIff | cmd/workass/provider_chat_first_screen.go:158-168 | A kept screen answers exactly the request it was read for, while its chat is closed at that revision |
| ChatCache.CachedPageIff | cmd/workass/provider_chat_first_screen.go:223-245 | A kept page answers exactly the request it was read for, under its slice's options and revision |
| ChatCache.DroppedIsGone | cmd/workass/provider_chat_first_screen.go:296-303 | A chat that opens is gone from both kinds, and no other chat is |
| ChatCache.CountBytes | cmd/workass/provider_chat_first_screen.go:248-251 | The size counted is the sum of the pages |
| ChatCache.FirstScreenCache.constructor | cmd/workass/provider_chat_first_screen.go:99-105 | The cache starts empty and within its budgets |
| ChatCache.FirstScreenCache.StoreFirstScreen | cmd/workass/provider_chat_first_screen.go:170-190 | The cache after storing a first screen, whichever check refuses it |
| ChatCache.FirstScreenCache.DropSlice | cmd/workass/provider_chat_first_screen.go:287-292 | The cache after dropping a slice |
| ChatCache.FirstScreenCache.DropFirstScreen | cmd/workass/provider_chat_first_screen.go:296-303 | The cache after dropping all of a chat |
| ChatCache.FirstScreenCache.Oldest | cmd/workass/provider_chat_first_screen.go:264-270 | The scan finds a least recent slice below the activity, if there is one |
| ChatCache.FirstScreenCache.MakeRoom | cmd/workass/provider_chat_first_screen.go:262-275 | Eviction ends; it takes only strictly less recent slices, least recent first, none to spare; and what went stays gone when there is no room after all |
| ChatCache.FirstScreenCache.StoreSlice | cmd/workass/provider_chat_first_screen.go:247-285 | Storing a slice: what is kept, what is evicted, and the counter |
| ChatCacheRuns.ServeFirstTrue | cmd/workass/provider_chat_first_screen.go:115-166 | A first screen served from the cache is the direct read |
| ChatCacheRuns.WarmedTrue | cmd/workass/provider_chat_first_screen.go:383-426 | Pages read for a summary that is still the chat's are pages at its revision |
| ChatCacheRuns.StepInv | cmd/workass/provider_chat_first_screen.go:107-303 | Opening, changing, closing, reading, storing and dropping keep every kept reply equal to the read it stands for |
| ChatCacheRuns.ServedIsTheDirectRead | cmd/workass/provider_chat_first_screen.go:33-36 | Over every interleaving, what the cache serves is what reading the chat at its present revision returns |
| ChatCacheRuns.AlwaysBudgeted | cmd/workass/provider_chat_first_screen.go:41-52 | Over every interleaving, both counters equal what is held and stay within their caps |
| ChatCacheRuns.ReadIsKept | cmd/workass/provider_chat_first_screen.go:107-133 | A request for a closed chat that finds nothing kept, and whose reply may be kept, reads it and from then on is answered from what it read |
| ChatCacheRuns.KeptIsServed | cmd/workass/provider_chat_first_screen.go:115-133 | A request that finds its reply kept is served it, with no read |
| ChatCacheRuns.ChatMoves | cmd/workass/provider_chat_first_screen.go:144-148 | A chat begins open, changes only while open and each time to its next revision, and closes with what it then holds |
| ChatCacheRuns.ReadingAhead | cmd/workass/provider_chat_first_screen.go:383-426 | Reading ahead starts from the chat's summary with no page, and each page read joins those before it |
| ChatCacheRuns.PagesAreServed | cmd/workass/provider_chat_first_screen.go:223-285 | What reading ahead keeps is served in the place of the read of each of its pages, while the chat is closed at that revision |
| ChatCacheRuns.OpeningDrops | cmd/workass/provider_chat_first_screen.go:296-303 | A chat that opens has nothing kept any more, and every other chat has what it had |
| WarmSlice.CutAt | cmd/workass/provider_chat_first_screen.go:400-406 | The rows taken of a page are those before the boundary |
| WarmSlice.WarmSlice | cmd/workass/provider_chat_first_screen.go:383-426 | The paging loop ends and keeps what its specification says, or nothing after a failed read |
| WarmSlice.RendererReadsAlike | desktop/renderer2/src/store/store.ts:1581-1594 | The renderer's turn, written from its own code, keeps the same rows as the daemon's and breaks off at the same reads |
| WarmSlice.PagesAreTheRenderersRequests | desktop/renderer2/src/store/store.ts:1581-1594 | Whatever the reads answer, each kept page answers its request; and the kept pages are requests the renderer's own loop makes, of which it makes at most one more and none once the slice is whole, if and only if none was read before a row without an id |
| WarmSlice.UnnamedRowIsReadInVain | desktop/renderer2/src/store/store.ts:1581-1594 | For every slice whose oldest row has no id, the daemon keeps a page before it that the renderer never asks for |
| WarmSlice.HowAWalkEnds | cmd/workass/provider_chat_first_screen.go:383-426 | A page that brings nothing new ends the walk with what was read; a read that fails leaves nothing of it |
| WarmSlice.SliceIsASuffix | cmd/workass/provider_chat_first_screen.go:383-426 | With a page-before read that is contiguous, the ids are always a duplicate-free suffix of the ledger, at most as long as wanted, and a short walk ended at a read with nothing older |
| HistoryPage.ReplyBytes | cmd/workass/provider_chat_history_budget.go:50-56 | The length of a reply in terms of its rows |
| HistoryPage.RawReply | cmd/workass/provider_chat_history_budget.go:33-47 | The reply built is the encoded array of the rows |
| HistoryPage.ReplyHolds | cmd/workass/provider_chat_history_budget.go:33-47 | A reply is its rows between brackets, in order, each byte for byte at a place given by the lengths before it, with one comma between two |
| HistoryPage.Size | cmd/workass/provider_chat_history_budget.go:50-56 | The size is the length of the reply, without building it |
| HistoryPage.RequiredFirst | cmd/workass/provider_chat_history_budget.go:75-84 | The oldest pending or running row, or the newest row |
| HistoryPage.FinishArchivePage | cmd/workass/provider_chat_history_budget.go:75-103 | The page is the longest fitting suffix of the rows, in their encodings; a failing row matters only if the page reaches it |
| HistoryPage.SuffixWithin | cmd/workass/provider_chat_history_budget.go:128-153 | The other reader's selection, over its own sizes |
| HistoryPage.OneLongest | cmd/workass/provider_chat_history_budget.go:91-101 | There is only one longest fitting suffix |
| HistoryPage.PageIsTheLongestUnderBudget | cmd/workass/provider_chat_history_budget.go:67-74 | A page holds the newest and every open row; when those fit, its reply is under the budget and would not be with the row before it, however the rows further back encode, and otherwise it is exactly those rows. Rows it did not reach need not finish |
| HistoryPage.SameRowsIff | cmd/workass/provider_chat_history_budget.go:75-153 | Given equal sizes both readers keep the same rows if and only if the budget is positive or no row may be dropped |
| Downscale.WeightsSumToOne | cmd/workass/chat_image_thumbs.go:294-310 | The weights of an output sample sum to one |
| Downscale.SourceSpreads | cmd/workass/chat_image_thumbs.go:294-310 | A source sample's weights over all outputs sum to n / source |
| Downscale.AreaTaps | cmd/workass/chat_image_thumbs.go:300-308 | The taps of an output are the contiguous samples it covers, each with its covered length, which is positive |
| Downscale.AreaWeights | cmd/workass/chat_image_thumbs.go:297-310 | The same for every output |
| Downscale.DotIsThePass | cmd/workass/chat_image_thumbs.go:264-271 | A loop over the taps is the sum over every source sample, weighted by what it covers |
| Downscale.TwoPassIsTheArea | cmd/workass/chat_image_thumbs.go:243-288 | A horizontal pass and then a vertical one is the two-dimensional area average |
| Downscale.MeanPreserved | cmd/workass/chat_image_thumbs.go:243-245 | The output adds up to the source in proportion to the pixels |
| Downscale.AverageWithin | cmd/workass/chat_image_thumbs.go:243-245 | An output stays within the source's range |
| Downscale.AverageAtMost | cmd/workass/chat_image_thumbs.go:243-245 | A channel at most alpha everywhere stays at most alpha |
| DownscaleImage.CapNeverActs | cmd/workass/chat_image_thumbs.go:280-284 | In exact arithmetic no rounded channel exceeds its rounded alpha, so the cap at alpha is there for rounding alone |
| DownscaleImage.FlatStaysFlat | cmd/workass/chat_image_thumbs.go:243-245 | A channel with one value everywhere comes out as that value's nearest byte; FlatColour says it of colours |
| DownscaleImage.FlatColour | cmd/workass/chat_image_thumbs.go:313-345 | An image of one opaque or premultiplied colour comes out in that colour, red, green, blue and alpha each in its place; a straight one comes out as each colour times alpha over 255, rounded half up, and its alpha |
| DownscaleImage.RoundsHalfUp | cmd/workass/chat_image_thumbs.go:347-356 | A value becomes its nearest byte, halves up, or the nearer end of the range |
| DownscaleImage.ClampOrdered | cmd/workass/chat_image_thumbs.go:347-356 | Rounding and clamping keep order |
| DownscaleImage.HeightFor | cmd/workass/chat_image_thumbs.go:249-252 | The height is in proportion, rounded half up, and at least one row |
| DownscaleImage.ReadRow | cmd/workass/chat_image_thumbs.go:313-345 | A row is read as premultiplied channels |
| DownscaleImage.WeighSample | cmd/workass/chat_image_thumbs.go:263-272 | The four channels of a sample are its taps' weighted sums |
| DownscaleImage.WeighLine | cmd/workass/chat_image_thumbs.go:263-273 | The same for every column of a line |
| DownscaleImage.AddScaled | cmd/workass/chat_image_thumbs.go:274-276 | A line is added to the accumulator by its weight |
| DownscaleImage.WeighRows | cmd/workass/chat_image_thumbs.go:257-277 | A row of the accumulator is the two passes over the rows it covers |
| DownscaleImage.DownscaleRows | cmd/workass/chat_image_thumbs.go:246-288 | Every output pixel is the rounded area average of its channels, none above alpha |
| Utf8.PrefixValidIff | cmd/workass/provider_chat_history_lean.go:123-132 | A prefix of well-formed text (section 3 of RFC 3629) is well-formed if and only if it ends where a character starts |
| Utf8.StartNearby | cmd/workass/provider_chat_history_lean.go:203-206 | A character starts within any four bytes of well-formed text |
| Utf8.ValidIff | cmd/workass/provider_chat_history_lean.go:123-132 | Well-formed text is exactly what some characters encode to in UTF-8, surrogates and numbers above U+10FFFF excepted |
| Utf8.EncodedIsRead | cmd/workass/provider_chat_history_lean.go:123-132 | An encoded character is read as one character of its own length, whatever follows it |
| LeanTools.HeadLength | cmd/workass/provider_chat_history_lean.go:127-131 | The head kept is the longest well-formed prefix within the limit |
| LeanTools.ToolPayloadHead | cmd/workass/provider_chat_history_lean.go:123-132 | The shrinking loop returns that head |
| LeanTools.LeanToolHead | cmd/workass/provider_chat_history_lean.go:135-144 | The head of a payload, cut after its last newline when that keeps more than half |
| LeanTools.HeadIsWellFormed | cmd/workass/provider_chat_history_lean.go:122-132 | A head never splits a character and gives up at most three bytes to that |
| LeanTools.LeanHeadIsWellFormed | cmd/workass/provider_chat_history_lean.go:134-144 | A lean head never splits a character and keeps more than half its limit |
| LeanTools.Lean | cmd/workass/provider_chat_history_lean.go:34-112 | A pass rewrites the settled rows in place, each event as its specification says |
| LeanTools.PassFaithful | cmd/workass/provider_chat_history_lean.go:34-120 | A pass keeps every field faithful to what is stored |
| LeanTools.PayloadsCutIff | cmd/workass/provider_chat_history_lean.go:34-78 | The payload pass shortens exactly: an output over 4096 bytes that prints no mark, an input over 4096 bytes, and, where titles are asked for, such a title that names no page; to at most a head, marked with the length it had |
| LeanTools.SummaryCutsIff | cmd/workass/provider_chat_history_lean.go:80-112 | A summary leaves a marked call alone, and of any other nothing of its input and at most 160 bytes of its output |
| LeanTools.OthersPassUntouched | cmd/workass/provider_chat_history_lean.go:34-112 | Rows pending or running, and events that are no tool call, pass either untouched |
| LeanTools.LeanRowsAreFaithful | cmd/workass/provider_chat_history_lean.go:34-120 | After both passes in any order and repetition each field is a prefix of the stored payload, deferred if and only if a strict one, with the stored length |
| LeanTools.MarkedCallIsKeptIff | cmd/workass/provider_chat_history_lean.go:80-99 | With the payloads leaned first, a call that shows something outside the fold is kept if and only if its mark was not only in a long input, past the head |
| LeanTools.MarkPastTheHead | cmd/workass/provider_chat_history_lean.go:80-99 | Every call named only past its input's head loses its output to the summary, which alone would keep it |
| LeanTools.ProjectToolDetail | cmd/workass/provider_chat_history_lean.go:200-213 | A detail read returns the bytes from its offset to the next one, and an error past the payload |
| LeanTools.ProgressIff | cmd/workass/provider_chat_history_lean.go:203-206 | A detail read gets further if and only if the payload ends or a character starts within the chunk's reach |
| LeanTools.ContinuationBytesStall | cmd/workass/provider_chat_history_lean.go:176-180 | A payload of continuation bytes alone stalls a reader at its first read |
| LeanTools.ChunkIsWellFormed | cmd/workass/provider_chat_history_lean.go:203-210 | From a character's start a chunk of well-formed text is not empty, well-formed and at most a mebibyte, and ends at a character's start |
| LeanTools.DetailRebuildsThePayload | cmd/workass/provider_chat_history_lean.go:176-180 | Reading from offset 0 until next is total ends and rebuilds a well-formed payload |
| Permissions.ReachesIsAPreorder | cmd/workass/permission_ceiling.go:105-129 | Not raising is a preorder on modes |
| Permissions.ReachesIff | cmd/workass/permission_ceiling.go:105-129 | Exactly which modes a caller reaches without a question |
| Permissions.ReachesByName | internal/acp/provider_permission.go:51-80 | In mode names and the provider's own vocabulary: from a mode named ask, always-ask, default or guardian with nobody asked exactly itself, an asking mode, the unnamed one and those the vocabulary reads as read or edit; from the unnamed one, and from any other by its reading, likewise |
| Permissions.ReachesUnderLimit | cmd/workass/permission_ceiling.go:64-74 | And what a command from another machine reaches under its limit; silence is the lowest |
| Permissions.ConfiguresIff | cmd/workass/permission_ceiling.go:105-129 | A reconfiguration passes if and only if the new mode is within reach, is the chat's own, or reads no higher than it |
| Permissions.ConfigureStaysWithin | cmd/workass/permission_ceiling.go:113-120 | A reconfiguration the gate lets through, lowering included, leaves a chat within reach of whoever reached it |
| Permissions.ResolveWithinCeiling | cmd/workass/permission_ceiling.go:358-384 | An unnamed selection above the ceiling becomes the caller's own mode, where it has one of that provider within reach, else its level in the provider's words where that is within reach, else stays; any other selection stays |
| Permissions.EffectiveIsTheMeet | cmd/workass/fleet_limit.go:70-97 | The effective limit is at or below grant and limit where stated, and one of them or full |
| Permissions.ForwardingNarrows | cmd/workass/fleet_limit.go:70-224 | Along any forwarding chain the limit is at or below the caller's level and every stated grant, equal to one of them, and every intermediate machine gave full access |
| Permissions.CrossedReachesNoMore | cmd/workass/agent_control.go:621-652 | What a caller reaches over links it reaches without them |
| Permissions.CrossesIff | cmd/workass/fleet_limit.go:70-224 | A command crosses one link under the lesser of its level and the grant, and any further link only where it arrived with full access |
| Permissions.AdmittedHere | cmd/workass/permission_ceiling.go:105-129 | On one machine a create, a send or a configure is let through exactly when its target is there, or is not, and its mode is within reach or not raised |
| Permissions.AdmittedTakesEffect | cmd/workass/permission_ceiling.go:21-40 | Every call let through has its effect, every other has none, and what a member of a chain makes or drives joins the chain |
| Permissions.NoLaundering | cmd/workass/permission_ceiling.go:21-40 | Over any chain of creates, spawns, sends, messages and configures descending from one caller, over any links, with nobody asked, everything reached runs at a mode the caller reached itself |
| Permissions.NothingFullUnderAnAskingChat | cmd/workass/permission_ceiling.go:21-40 | Nothing descended from a chat in an asking mode, with nobody asked, ever runs at a mode its vocabulary reads as full access or does not know, unless that mode asks itself |
| FleetId.FormatParses | internal/fleetid/fleetid.go:150-183 | A global id reads back as itself, slashes in its local part included, unless that ends in space |
| FleetId.ParseFormats | internal/fleetid/fleetid.go:169-183 | What parses is well-formed and written again as the text it was read from |
| FleetId.TagSplits | internal/fleetid/fleetid.go:227-253 | The legacy tag reads back as its home and local part |
| FleetId.SpellingsAgree | internal/fleetid/fleetid.go:227-253 | Both spellings of an id split to one home and local part |
| FleetId.SplitShape | internal/fleetid/fleetid.go:227-253 | A homed value splits to a home without the tag's separator and a local part |
| FleetId.WellFormedIff | internal/fleetid/fleetid.go:118-145 | A name's home holds no separator and no white space, its local part is not empty, and its kind is one of eight |
| FleetId.ParseIff | internal/fleetid/fleetid.go:169-183 | A text without the scheme is no global id, and one with it parses to exactly the name it spells |
| FleetId.SplitIff | internal/fleetid/fleetid.go:227-253 | Exactly which texts are empty, bare, or homed in either spelling; the rest are malformed |
| Routing.RewriteFields | cmd/workass/fleet_route.go:63-88 | The loop over the address params rewrites exactly those, or refuses on a malformed one |
| Routing.ResolveFleetAddressedParams | cmd/workass/fleet_route.go:63-88 | This machine's ids lose their home, another's keep it in the legacy tag, and a malformed one is refused |
| Routing.ResolvedKeepsTheHome | internal/fleetid/fleetid.go:339-352 | At the edge another machine's id keeps its home and local part |
| Routing.ScanFields | cmd/workass/agent_remote_parity.go:196-209 | The scan finds the one machine the address ids name, or a conflict |
| Routing.MethodTarget | cmd/workass/agent_remote_parity.go:175-280 | The target of a call is the one LocalOnlyIff, MachineScopedIff and OtherScopesIff describe |
| Routing.LocalOnlyIff | cmd/workass/agent_remote_parity.go:196-217 | A local-only call runs here if and only if no address id is malformed or names a machine and no machine id is given, and is refused otherwise |
| Routing.MachineScopedIff | cmd/workass/agent_remote_parity.go:218-239 | A machine's call runs here, or goes to a given machine, under exactly the stated conditions on its ids and machine id, with and without a tagged entity, and is refused otherwise |
| Routing.OtherScopesIff | cmd/workass/agent_remote_parity.go:240-280 | So for a chat's call or a fork: a tab and a chat that disagree, a secondary id that disagrees, a machine id that differs, or one given to a method that takes no host, is refused |
| Routing.HomeIsLocal | cmd/workass/agent_control.go:143-168 | The local API is the fleet's with itself for home: a call whose ids name no machine but its own, in any spelling, runs here when its machine id is its own or none; with another's it goes there where the method takes a host, and is refused otherwise |
| Routing.TargetIsTheOneNamed | cmd/workass/agent_remote_parity.go:175-280 | A call goes to a machine only if its address ids and its machine id name no other and one of them names it |
| Routing.StripFleetTargetTags | cmd/workass/fleet_mesh.go:260-277 | Ids naming the target lose their tag, others stay |
| Routing.RejectMachineTaggedParams | cmd/workass/agent_control_remote.go:330-345 | The receiver accepts if and only if no param names a machine |
| Routing.AcceptedIdsAreTheReceivers | cmd/workass/agent_control.go:702-724 | Of a forwarded call that a receiver accepts, every address id named no machine and is unchanged, or named the receiver and is its local part, which a work id has stripped of the receiver's name once more |
| Routing.WorkIdIsItsLocalPartIff | cmd/workass/agent_control.go:702-724 | In an accepted call a work id arrives as exactly its local part if and only if that does not name the receiver again |
| Routing.NestedIdIsRefused | cmd/workass/agent_control_remote.go:330-345 | Any other address id whose local part still names a machine is refused |
| Routing.TwoMachinesAreNeverAccepted | cmd/workass/agent_control_remote.go:98-108 | A call whose routed address ids name two machines is refused by the sender or by every receiver |
| Routing.AcceptedEndToEnd | cmd/workass/agent_control.go:152-168 | From the caller's own params, work id included: an id of another machine named the receiver and arrives as its local part, one of none is unchanged, one of the sender has lost that name |
| Routing.OnlyTheReceiversIdsIff | cmd/workass/agent_control.go:143-168 | Of an accepted call, every address id, the work id included, named the receiver or no machine if and only if none named the sender |
| Routing.SendersIdCrosses | cmd/workass/agent_remote_parity.go:196-209 | For every sender, receiver and pair of ids, a fork call naming one of each is sent and accepted, the sender's id arriving bare |
| Routing.WorkIdLosesTwoNames | cmd/workass/agent_control.go:702-724 | For every sender, receiver and bare id, a call whose work id names the receiver twice over that id is sent, accepted, and arrives with neither name |
| CloseJournal.StaleJournal | cmd/workass/provider_chat_close.go:134-141 | A journal of another generation is found if there is one |
| CloseJournal.CurrentAttachment | cmd/workass/provider_chat_close.go:95-143 | In whatever order the lanes are visited, the scan finds the one lane a close may act on, or none exists |
| CloseJournal.FindCloseJournal | cmd/workass/provider_chat_close.go:184-241 | In whatever order the actors are read, the only one naming the session is found, and none when several do |
| CloseJournal.StepInv | cmd/workass/provider_chat_close.go:52-90 | Attaching, resuming, losing, closing, claiming, failing and recovering keep one journal for a lane and session |
| CloseJournal.ClosesOneGeneration | cmd/workass/provider_chat_close.go:129-142 | Over any run reusing a session id, all journals of a lane and session are one, of one generation, and the provider is asked to detach it at most once |
| CloseJournal.CompletedIsReadback | cmd/workass/provider_chat_close.go:36-41 | Once completed, a close of the session changes nothing, for ever |
| CloseJournal.TargetIff | cmd/workass/provider_chat_close.go:95-143 | A close acts on a lane if and only if chat, executor's row and lane name one chat, tab and provider in full, the attachment contradicts none of it nor the directory, no other lane carries the session, and no journal is of another generation |
| CloseJournal.NamedIff | cmd/workass/provider_chat_close.go:184-241 | A session names an actor while one of its lanes is attached through it, and for ever once a close of it has completed |
| CloseJournal.CloseWritesItsJournal | cmd/workass/provider_chat_close.go:52-90 | A close writes one pending journal of its lane's present generation unless the lane and session have one, and nothing else |
| CloseJournal.JournalMoves | internal/chat/reducer.go:5955-5995 | A journal keeps its lane, session and generation; it is dispatched by its claim, failed or ambiguous by a failure, ambiguous after a boot that finds it dispatched with no receipt of its generation, and completed by the loss of its host in that generation |
| CloseJournal.DispatchedEnds | internal/chat/reducer.go:5985-5996 | A dispatched journal can always fail, and a boot leaves none dispatched |
| CloseJournal.LaneMoves | cmd/workass/provider_chat_close.go:52-90 | A lane keeps what it is of and never goes back a generation; a resume and the loss of its host each begin the next, and no close lets it go |
| CloseJournal.DetachIsOfThePresent | cmd/workass/provider_chat_close.go:52-90 | The provider is asked to detach only by a claim, of a pending journal whose lane is attached to that session in that generation, and once per claim |
| CloseJournal.CloseCompletes | cmd/workass/provider_chat_close.go:52-90 | A close that nothing stops asks its target to detach once and completes with the loss of the host |
| NoticeBudget.WindowMergesIff | cmd/workass/fleet_notice_budget.go:91-103 | Exactly when the window takes two different rows of a chat for one notice |
| NoticeBudget.Budget.constructor | cmd/workass/fleet_notice_budget.go:40-42 | The window starts empty |
| NoticeBudget.Budget.Admit | cmd/workass/fleet_notice_budget.go:47-70 | A notice is admitted if and only if none of its identity is inside the window, which then holds it |
| NoticeBudget.Budget.Forget | cmd/workass/fleet_notice_budget.go:74-89 | Every record of the identity is forgotten and no other |
| NoticeBudget.HeldIsDeliveredOrOpen | cmd/workass/fleet_watcher.go:583-602 | A notice is held only for one of its identity delivered inside the window or being delivered |
| NoticeBudget.HeldIsDelivered | cmd/workass/fleet_watcher.go:583-602 | With one emission at a time, a held notice has reached the chat |
| NoticeBudget.DeliveryEnds | cmd/workass/fleet_watcher.go:583-602 | A delivery ends with its notice in the chat, or with no trace of it in the window, so that the next of its identity is offered; other notices stay as they are |
| NoticeBudget.HeldMayNeverBeDelivered | cmd/workass/fleet_watcher.go:583-602 | From every reachable state in which a notice would be held and none of its identity was delivered inside the window, it is offered, held, and never delivered once those under way fail |
| NoticeBudget.HeldAndNeverDelivered | cmd/workass/fleet_watcher.go:583-602 | With two at a time it may not have: the second is held and the first then fails |
| HomeDown.StepInv | cmd/workass/fleet_watcher.go:462-533 | Beats, deliveries, refusals and the link's return, interleaved, keep the outage's invariant |
| HomeDown.OneRowPerOutage | cmd/workass/fleet_watcher.go:462-533 | In every interleaving, with failed deliveries that unlatch, a chat has one row for one start of an outage, after the threshold, dated as the link reported |
| HomeDown.OutageIsToldOnce | cmd/workass/fleet_watcher.go:462-533 | While one outage lasts and no account moves its start back, each chat is told at most once under that start, and any other row is of a beat that had begun before |
| HomeDown.EarlierStartTellsAgain | cmd/workass/fleet_watcher.go:485-489 | For every start and earlier account, a run from the beginning in which one chat admits, another refuses, and the earlier account then tells the first chat again |
| HomeDown.LatchedTellsNobody | cmd/workass/fleet_watcher.go:485-533 | Latched, with no beat left that read no latch or still tells, nobody is told anything until the link returns, whatever start is given |
| HomeDown.UnlatchedTellsAgain | cmd/workass/fleet_watcher.go:485-533 | From every other state, an earlier account can tell again a chat that has a row of the outage and an unfinished monitor |
| HomeDown.OutagesMoveNoMonitor | cmd/workass/fleet_watcher.go:462-533 | Over any run, the monitors are those the rest of the daemon alone leaves: no beat, home_down or return of the link moves a cursor, consumes a monitor or drops one |
| HomeDown.LinkWatch.constructor | cmd/workass/fleet_watcher.go:157-177 | No home is dark or announced at first |
| HomeDown.LinkWatch.LinkUp | cmd/workass/fleet_watcher.go:470-484 | The link's return clears the home's start and latch, and says whether it had been announced |
| HomeDown.LinkWatch.LinkDown | cmd/workass/fleet_watcher.go:485-532 | A beat keeps the earlier start, tells every chat once past the threshold, and latches unless one refused |
| HomeDown.UninterruptedBeat | cmd/workass/fleet_watcher.go:462-533 | With no other beat between its steps, a beat leaves the latch as that method does, and adds one row for each chat with an unfinished monitor that admits it and has none of this outage, and no other |
| HomeDown.NextOutageIsTold | cmd/workass/fleet_watcher.go:470-533 | From every state, once the link has returned, the next outage past the threshold is told to every chat with an unfinished monitor that admits it, under its own start, and to no other |

## Left out

- FleetGuarantees.NoLostOutcome: a watcher that forgets its own monitor and the boot-time retirement of monitors an earlier build held (cmd/workass/fleet_process.go:425-442) are not steps of the model. A notice held inside the window counts as declined; NoticeBudget says when that was delivered.
- FleetHeadFalls.MovedHeadLosesAnOutcome: a watcher with a hole above its cursor, which CatchUpIff says no sync carries past it, is not covered.
- FleetDelivery.StepInv: writes to the monitor registry are durable when they return; a failed save is not modelled. The home's append is one step and the home does not crash: a line cut short by a crash has no newline, the next append continues it, and the reader skips the line they share (internal/fleetlog/log.go:500-523), so that append is lost although it returned success. The guard that keeps a second exit out is one step with its append, and is applied to a subagent's exit too, which has none of its own and is reported once.
- FleetWatcher.Watcher.ApplySlice: the budget window is one of the reasons for a verdict here, and its records are in NoticeBudget; not modelled are the hosted row it settles and other targets' rows of the same chat.
- FleetHome.Home.Append: a monitor allows every kind but progress; a narrower list of kinds is not modelled.
- FleetLocal.StepInv: the log is not pruned during a run, reads of it succeed, an exit is a log's last event, and a cursor and its refusal count move in one step (a count read between the two is covered by the `cleared` flag of Ask). Stopping the daemon is a step; the next boot is not.
- FleetRetry.Retries.DeliveryRefused: outcomes held in memory because their home no longer has the child (fleet_retry.go:81-94) are not modelled.
- LaneLocks.MutualExclusion: the chat's own lock, a plain mutex in the code, is a lane like the others.
- Mutation.StepInv: a request is compared whole, as its digest would be if it had no collisions; the chat's fence, the controller, the store and the shell are free choices of each step. Other holders of the chat's lock are not modelled.
- ChatCacheRuns.StepInv: a read sees one revision and is settled by it; deleting a chat and the note of which tails are large (provider_chat_first_screen.go:192-219) are not modelled.
- WarmSlice.SliceIsASuffix: the page-before read is contiguous by hypothesis.
- HistoryPage.FinishArchivePage: finishing and encoding a row is one opaque result per row.
- DownscaleImage.DownscaleRows: floating point is replaced by exact arithmetic, and rows are returned rather than written into one buffer with a stride; grey, YCbCr and other formats are premultiplied pixels here.
- LeanTools.Lean: an event is a record with its five fields; the marks are any test a whole passes when a prefix does.
- Permissions.NoLaundering: provider and mode names are taken in normal form, a target keeps its mode between the check and the use, and answers to a permission card are not part of a chain. Whoever outside the chain raises a chat it drives is excluded by hypothesis.
- Permissions.ForwardingNarrows: the surfaces refused to narrowed work (fleet_limit.go:184-208) would only add one-branch cases.
- Routing.AcceptedEndToEnd: params are strings, and the relay through the renderer is not modelled.
- CloseJournal.StepInv: lane ids are not empty, and the executor's own session row is any row; creating lanes and recovering their phases are not modelled.
- Hosted subagent rows, their queues and adoption (fleet_hosted_work.go), the settings of a chat and its creation beyond the permission gate (chat_control.go), the text of notices, hashing, JSON, dialling, discovery and the updater are not modelled.
