# Verification of the agent runtime

Dafny models of the parts of the runtime where several components have to agree, and proofs
of what they promise together. `dafny verify dfyconfig.toml` checks everything.

**The runtime epoch.** `EpochProtocol` is the shared memory of one epoch (accepted ledger,
reliable staging, event outlet) as a step system in which every write is one step.
`Coordinator` is the actor itself, with its fields and handlers, over the shared objects of
`Staging`, `Ledger`, `Outlet` and `Coalescer`; each of its writes is recorded as a step, so
whatever holds of every step sequence and of every prefix of one holds of every run and of a
panic at any point inside a handler. `CoordinatorState` and `CoordinatorSteps` hold the
scheduling fields as values and what one handler may change, `CoordinatorRuns` holds runs with
a surprising end. `Supervisor` winds the epoch up.
`Shutdown` is the merge of shutdown requests.

**The turn kernel and its driver.** `KernelProtocol` and `Kernel` are the pure state machine,
with identifiers down to their digits (`Identifiers`). `TurnDriver` drives it, with a commit
failing or a cancellation arriving at any await; `TurnLog` is the durable log,
`ModelStreamConsumer` the rules for reading a model stream, `Backoff` the retry delay.

**Two JSON readers.** `JsonGrammar` validates tool arguments, `JsonScanner` fetches fields from
them by counting brackets, `JsonAgreement` proves that they agree, and `JsonDocument` on which
arguments as they arrive.

**The replay sidecar.** `ReplayStore`, `ReplayMatching` and `ReplayCoordinator` match stored
generations to a conversation, bury continuations and collect garbage; `ComponentEncoding`
names their files.

**Small stores and readers.** `DriverStream` (sealed model streams), `Coalescer`,
`CancelToken` (interleaved atomic steps), `Utf8` and `Utf8Reads` (chunked decoding), `OutputTail`,
`PagedReader`, `GenerationCache`.

The classes are proved against functions of values; histories, the environment (clock,
consumer, driver task, store) and the steps taken are ghost or nondeterministic.

## Where the code does not do what it promises

Each point names a concrete input or run, and then the exact condition under which the promise
holds, proved for all of them.

- A panic between taking a settlement out of staging and giving it to the outlet loses it:
  by then it has left both the ledger and the queue (`EpochProtocol.LostSettlement`). Exactly
  once holds if and only if no settlement is in hand (`ExactlyOnceIffNoSettlementInHand`).
- The two-slot reserve covers a settlement and the fault report behind it, unless the last events
  of the driver take it up first (`CoordinatorRuns.DropsFaultReport`; with nothing left in its
  channel nothing is dropped, `Coordinator.OnDriverJoin`). It does not cover a driver event that
  slips in between the emptiness test and the receive of `discard_driver_events_if_idle` while the
  epoch is wound up (`DropsRacedEvent`). An emitted event is dropped if and only if the consumer is
  there, staging is full and nothing could be sent (`Coordinator.EmitReliable`), and there are no
  other such events (`OnlyFaultsAreDropped`). A settlement without room is not dropped: its
  operation stays in the ledger.
- A settlement that its driver confirmed and reported is not always delivered: an idle admission
  replaces a driver channel that still holds it (`CoordinatorRuns.LosesReport`), the end of the
  epoch lets go of a channel that is not dry by its deadline, and a raced report finds no room.
  What is delivered is made up as failed if and only if the report was abandoned in one of these
  ways, and mirrors it otherwise (`Coordinator.ReportedSettlement`, `Supervisor.RunEpoch`).
- "The active id is in the ledger" fails between the settlement and the join of its driver
  (`CoordinatorRuns.RunsThoughSettled`); it holds if and only if the settlement is not staged
  (`Coordinator.ActiveUntilSettled`).
- A cancel of a settled operation is answered as unknown after 33 settlements
  (`CoordinatorRuns.ForgetsTheOldest`), and as settled if and only if fewer than 32 were staged
  after its own (`Coordinator.SettledAnswer`, `ForgottenAnswer`).
- 32-bit effect numbers overflow for a limit of 2^31 - 1 or more rounds (`Kernel.OverflowBeyond`),
  and for no smaller one (`NoOverflow`). An overflow ends the model's run as a panic would; a
  release build wraps instead.
- A bad escape makes the scanner stop inside the string, and the fields behind it are not found
  in a document the validator accepted (`JsonAgreement.BadEscapeHidesFields`); a string value is
  skipped to its end if and only if its escapes are good (`SkipStringExact`). A plus sign passes for a
  hexadecimal digit (`PlusAccepted`).
- The validator trims Unicode white space but its caller keeps the untrimmed text
  (`JsonDocument.AcceptedYetMissing`); fields are found if and only if only ASCII white space
  stands in front or there are none (`FoundIffAsciiLead`).
- With two concurrent requests one can finish while the other still has to wake a poll
  (`CancelToken.FinishedIsNotEnough`); a pending poll has been woken if and only if no request
  holds its waker (`NoLostWakeup`).
- Shown output depends on the slices in which an ill-formed stream is given to `take_utf8`
  (`Utf8.CutsMatter`), if and only if a second ill-formed sequence can come later than the first
  (`CutsMatterIff`). Of the reads themselves, of at most 8192 bytes, the exact condition is that
  ill-formed sequences come faster than reads from some place on (`Utf8Reads.ReadsMatterExactly`).
- An output of one line of exactly the byte budget, and no other, is kept whole and reported as
  truncated (`OutputTail.WholeLines`, `WholeKeptYetTruncated`).
- A first reasoning delta is kept uncut in the driver's store, however long
  (`DriverStream.OverlongIsHeld`); everything else is cut at 4096 bytes (`StepCutsExactly`,
  `RunCuts`).


## Model

| member | source | states |
|---|---|---|
| `EpochProtocol.InvStep` | crates/philo-agent-runtime/src/coordinator.rs:1172-1184 | Every single write to ledger, staging or outlet keeps the epoch invariant: each id is settled at most once, an accepted id stays open or settled while the consumer is there, and is both only between the push and the ledger removal; staging and ledger keep their bounds. |
| `EpochProtocol.RunInv` | crates/philo-agent-runtime/src/coordinator.rs:162-171 | The invariant holds after every legal sequence of writes, so wherever the coordinator stops. |
| `EpochProtocol.SettledExactlyOnce` | crates/philo-agent-runtime/src/epoch.rs:268-348 | Stop after any writes with the consumer still there and the epilogue delivered: an id is settled once if it was accepted, except one whose settlement was in hand, and never if it was not accepted. |
| `EpochProtocol.ExactlyOnceIffNoSettlementInHand` | crates/philo-agent-runtime/src/coordinator.rs:1131-1142 | Exact condition: all accepted ids are settled exactly once if and only if the stop did not fall between popping a settlement from staging and sending it. |
| `EpochProtocol.LostSettlement` | crates/philo-agent-runtime/src/coordinator.rs:1131-1132 | The failing case is reachable at the smallest capacities allowed: an operation accepted, announced and settled is settled zero times if the stop falls behind the pop of its settlement. |
| `EpochProtocol.SettledAtMostOnce` | crates/philo-agent-runtime/src/epoch.rs:380-398 | However far the epilogue gets and whatever the consumer does, no id is settled twice. |
| `EpochProtocol.ForcedInAdmissionOrder` | crates/philo-agent-runtime/src/epoch.rs:273-288 | Forced settlements come in admission order and number at most the ledger capacity. |
| `EpochProtocol.LosslessFifo` | crates/philo-agent-runtime/src/coordinator.rs:1255-1311 | While the consumer is there, reliable sent ++ in hand ++ staged equals, at every step, the reliable events staged so far, in order. |
| `EpochProtocol.DropHolds` | crates/philo-agent-runtime/src/epoch.rs:273-276 | Filtering the leftover keeps exactly the entries whose id is not settled by a staged event. |
| `EpochProtocol.DropSubsequence` | crates/philo-agent-runtime/src/epoch.rs:112-119 | Removing entries never changes the order of those that stay. |
| `Staging.ReliableStaging.Push` | crates/philo-agent-runtime/src/staging.rs:60-67 | Accepts exactly while below the cap, at the back; otherwise nothing changes. |
| `Staging.ReliableStaging.PopFront` | crates/philo-agent-runtime/src/staging.rs:69-71 | Takes the oldest event. |
| `Staging.ReliableStaging.PushFront` | crates/philo-agent-runtime/src/staging.rs:73-77 | Puts a refused event back in front. |
| `Staging.ReliableStaging.Drain` | crates/philo-agent-runtime/src/staging.rs:83-85 | Hands out everything in order and empties the queue. |
| `Staging.ReliableStaging.Remaining` | crates/philo-agent-runtime/src/staging.rs:43-46 | Free slots and held events add up to the cap. |
| `Ledger.AcceptedLedger.Insert` | crates/philo-agent-runtime/src/epoch.rs:80-103 | Inserts a new entry at the end while below the cap; order list and map stay in agreement. |
| `Ledger.AcceptedLedger.Remove` | crates/philo-agent-runtime/src/epoch.rs:112-119 | Removes exactly the one id from list and map, keeping the order of the others. |
| `Ledger.AcceptedLedger.TakeAll` | crates/philo-agent-runtime/src/epoch.rs:121-130 | Empties the ledger and returns its entries in admission order. |
| `Ledger.AcceptedLedger.HoldsIsMember` | crates/philo-agent-runtime/src/epoch.rs:105-110 | The abstract ledger holds an id exactly when the map does. |
| `Ledger.RetainEntries` | crates/philo-agent-runtime/src/epoch.rs:115-117 | Retaining the other ids in the order list and removing one from the map is the removal of its entry. |
| `Outlet.EventOutlet.TrySend` | crates/philo-agent-runtime/src/coordinator.rs:1294-1304 | A bounded channel with a concurrent consumer: sent, full or closed, and the sent history grows only by the event. |
| `Outlet.EventOutlet.SendBefore` | crates/philo-agent-runtime/src/epoch.rs:433-450 | A send that may also run into its deadline. |
| `Shutdown.SkippingLooksChangesNothing` | crates/philo-agent-runtime/src/shutdown.rs:17-35 | Looking at the merged slot more or fewer times gives the same state and deadline after the last look, for every interleaving of merges and looks. |
| `Shutdown.Absorbs` | crates/philo-agent-runtime/src/coordinator.rs:819-846 | A request that is already merged into a later one makes no difference before it. |
| `Shutdown.ShutdownOnlyClimbs` | crates/philo-agent-runtime/src/coordinator.rs:819-846 | Along any run the state only climbs and the deadline never moves later. |
| `Shutdown.SlotGrows` | crates/philo-agent-runtime/src/shutdown.rs:17-28 | The slot after more merges absorbs every earlier state of it. |
| `CoordinatorState.SpawnKeepsOk` | crates/philo-agent-runtime/src/coordinator.rs:402-404 | An idle admission keeps the scheduling invariant: one child at a time, starts in acceptance order, nobody twice. |
| `CoordinatorState.EnqueueKeepsOk` | crates/philo-agent-runtime/src/coordinator.rs:404-409 | So does queueing a fresh operation. |
| `CoordinatorState.StartNextKeepsOk` | crates/philo-agent-runtime/src/coordinator.rs:870-883 | So does starting the head of the queue. |
| `CoordinatorState.ShutdownKeepsOk` | crates/philo-agent-runtime/src/coordinator.rs:819-868 | So does every shutdown request; the queue is emptied on leaving Running. |
| `CoordinatorState.DequeueKeepsOk` | crates/philo-agent-runtime/src/coordinator.rs:446-454 | So does removing a queued operation, which then is neither queued nor active. |
| `CoordinatorState.StartsInAcceptanceOrder` | crates/philo-agent-runtime/src/coordinator.rs:880-882 | Of two started operations the first started was accepted first. |
| `CoordinatorState.AcceptedOnce` | crates/philo-agent-runtime/src/coordinator.rs:375-391 | No operation is accepted twice. |
| `CoordinatorState.PositionOf` | crates/philo-agent-runtime/src/coordinator.rs:446-449 | The first queue position with the id, or none. |
| `CoordinatorSteps.SettledChannel` | crates/philo-agent-runtime/src/coordinator.rs:1180-1182 | Settling an id strands nothing: queue and driver channel still refer to open operations only. |
| `CoordinatorSteps.ReceivedOk` | crates/philo-agent-runtime/src/coordinator.rs:568-599 | The front of a sound driver channel can be forwarded; a settlement belongs to an unsettled operation that is no longer queued. |
| `CoordinatorSteps.ForwardedIsDrained` | crates/philo-agent-runtime/src/coordinator.rs:614-624 | Forwarding one received event stages exactly its public counterpart, unless the consumer is gone or the event raced. |
| `CoordinatorSteps.DrainedTrans` | crates/philo-agent-runtime/src/coordinator.rs:632-648 | Any number of forwarded events: what was received is staged one for one, in order. |
| `CoordinatorSteps.FairReliable` | crates/philo-agent-runtime/src/coordinator.rs:1281-1295 | One more reliable event keeps the pass fair while fewer than four were sent in a row or no transient waits. |
| `CoordinatorSteps.JoinedSettleable` | crates/philo-agent-runtime/src/coordinator.rs:689-709 | After its driver joined and its channel ran dry an unsettled operation can be settled from the exit. |
| `CoordinatorSteps.ProgressTrans` | crates/philo-agent-runtime/src/coordinator.rs:162-171 | Histories only grow, shutdown only climbs, and nothing is accepted or started outside Running: this composes over any stretch of a run. |
| `CoordinatorSteps.JoinedIsProgress` | crates/philo-agent-runtime/src/coordinator.rs:674-757 | Reaping a driver makes progress in this sense. |
| `CoordinatorSteps.NothingToStart` | crates/philo-agent-runtime/src/coordinator.rs:870-883 | After trying to start the next operation nothing is left that could start, even if the consumer is lost meanwhile. |
| `CoordinatorSteps.AdmittedIsProgress` | crates/philo-agent-runtime/src/coordinator.rs:370-412 | So does an admission while Running. |
| `Coordinator.Coordinator.BeginShutdown` | crates/philo-agent-runtime/src/coordinator.rs:819-846 | The shutdown fields, queue and children afterwards are those of the shutdown function: min deadline, climb, reject, abort. |
| `Coordinator.Coordinator.RequestShutdown` | crates/philo-agent-runtime/src/coordinator.rs:173-178 | A shutdown request keeps the whole invariant and leaves the ledger alone. |
| `Coordinator.Coordinator.OnEventSinkClosed` | crates/philo-agent-runtime/src/coordinator.rs:1091-1101 | Staging and transients are dropped once, and a running coordinator goes to Forced. |
| `Coordinator.Coordinator.FlushFront` | crates/philo-agent-runtime/src/coordinator.rs:1131-1142 | Pop, send, and on a full outlet put back in front; on a closed one react. |
| `Coordinator.Coordinator.FlushStagingBestEffort` | crates/philo-agent-runtime/src/coordinator.rs:1127-1144 | Moves staged events to the outlet in order until none is left or the outlet is full, or notices that the consumer is gone. |
| `Coordinator.Coordinator.FlushTransientsBestEffort` | crates/philo-agent-runtime/src/coordinator.rs:1146-1163 | Sends transients only behind an empty staging queue, until none is left or the outlet is full. |
| `Coordinator.Coordinator.TrySendOneTransient` | crates/philo-agent-runtime/src/coordinator.rs:1313-1328 | Sends, republishes or drops one waiting transient. |
| `Coordinator.Coordinator.FlushOutbound` | crates/philo-agent-runtime/src/coordinator.rs:1274-1311 | Terminates, and wherever five or more reliable events were sent in a row no transient was waiting. |
| `Coordinator.Coordinator.StageReliable` | crates/philo-agent-runtime/src/coordinator.rs:1172-1184 | Stages the event if there is room and the consumer is there; a staged settlement leaves the ledger and has still to be remembered. |
| `Coordinator.Coordinator.SettleOperation` | crates/philo-agent-runtime/src/coordinator.rs:966-1011 | Settles an operation that is in the ledger, once, if there is room, and remembers it; otherwise changes nothing. |
| `Coordinator.Coordinator.EmitReliable` | crates/philo-agent-runtime/src/coordinator.rs:1255-1272 | Stages the event after flushing. It is dropped if and only if the consumer is there, staging was full and nothing could be sent; of an event that is flushed before, only if the outlet was full too. |
| `Coordinator.Coordinator.ForwardDriverEvent` | crates/philo-agent-runtime/src/coordinator.rs:568-612 | A driver event becomes its public event, for the session of the active operation or the ledger; a settlement settles and unledgers its operation; the coordinator notes starts and nothing else. |
| `Coordinator.Coordinator.ForwardNext` | crates/philo-agent-runtime/src/coordinator.rs:614-624 | Receives and forwards at most one event; without room only one that raced, which is dropped if and only if nothing could be sent. |
| `Coordinator.Coordinator.DrainDriverEvents` | crates/philo-agent-runtime/src/coordinator.rs:614-628 | Forwards until the channel of a finished driver is dry or fewer than two slots are free, and drops nothing. |
| `Coordinator.Coordinator.DrainDriverOpenSlots` | crates/philo-agent-runtime/src/coordinator.rs:632-648 | Forwards while one slot is free; a dead driver leaves events behind only when staging is full. |
| `Coordinator.Coordinator.DiscardDriverEventsIfIdle` | crates/philo-agent-runtime/src/coordinator.rs:650-662 | Lets an empty, finished channel go; a live driver may slip one event in, which is forwarded even without room. |
| `Coordinator.Coordinator.PullCaughtUpTransients` | crates/philo-agent-runtime/src/coordinator.rs:1194-1199 | Publishes driver transients only while the channel is empty. |
| `Coordinator.Coordinator.SpawnDriver` | crates/philo-agent-runtime/src/coordinator.rs:495-532 | Starts a driver for an unsettled operation over a new channel, replacing whatever is left of an old one. |
| `Coordinator.Coordinator.MaybeStartNext` | crates/philo-agent-runtime/src/coordinator.rs:870-883 | Starts the head of the queue exactly if running and nothing is active, in maintenance or left in the channel. |
| `Coordinator.Coordinator.Admit` | crates/philo-agent-runtime/src/coordinator.rs:370-412 | Full queue or full ledger refuse without a trace; otherwise entered, announced, and started if idle (whatever the driver channel still holds) or queued. |
| `Coordinator.Coordinator.Submit` | crates/philo-agent-runtime/src/coordinator.rs:341-359 | Refused while shutting down or without the two-slot reserve; otherwise as admission. |
| `Coordinator.Coordinator.StartCompaction` | crates/philo-agent-runtime/src/coordinator.rs:360-366 | Accepted exactly when running, with the reserve free and idle; then announced twice. |
| `Coordinator.Coordinator.CancelOperation` | crates/philo-agent-runtime/src/coordinator.rs:438-482 | The answer in every case; a queued operation is removed, announced and settled, the active one is asked once. |
| `Coordinator.Coordinator.CancelQueued` | crates/philo-agent-runtime/src/coordinator.rs:446-468 | Both reliable events of a queued cancel find room, unless the consumer turns out to be gone. |
| `Coordinator.Coordinator.CancelMaintenance` | crates/philo-agent-runtime/src/coordinator.rs:484-493 | Only the named running maintenance task is asked to stop. |
| `Coordinator.Coordinator.SettleJoined` | crates/philo-agent-runtime/src/coordinator.rs:689-757 | A joined operation is settled by its exit unless settled, committed or without room; only the fault after it may be dropped; its channel stays only for what is left in it. |
| `Coordinator.Coordinator.OnDriverJoin` | crates/philo-agent-runtime/src/coordinator.rs:674-757 | Own events first, then the exit, then the next operation; a join always finds its active operation. Two slots are free when it is reaped, so nothing is dropped for want of room unless the driver still had something to say. |
| `Coordinator.Coordinator.OnMaintenanceJoin` | crates/philo-agent-runtime/src/coordinator.rs:759-811 | The maintenance settlement always finds room and tells the outcome; then the next operation starts. |
| `Coordinator.Coordinator.EmitAvailabilityIfChanged` | crates/philo-agent-runtime/src/coordinator.rs:1013-1024 | The last published availability is the current one afterwards. |
| `Coordinator.Coordinator.SendReserved` | crates/philo-agent-runtime/src/coordinator.rs:236-242 | A reserved slot is never full; if the consumer quits meanwhile the event is gone unnoticed. |
| `Coordinator.Coordinator.FlushReliableUntil` | crates/philo-agent-runtime/src/coordinator.rs:1330-1356 | Stops when nothing is staged, the consumer is gone or the deadline has passed, not before. |
| `Coordinator.Coordinator.OnControl` | crates/philo-agent-runtime/src/coordinator.rs:306-332 | What every control message does, by its answer; a closed lane forces shutdown. |
| `Coordinator.Coordinator.OnCommand` | crates/philo-agent-runtime/src/coordinator.rs:334-368 | What every command does: refused without a trace, or admitted; a closed lane forces shutdown only while running. |
| `Coordinator.Coordinator.OnLane` | crates/philo-agent-runtime/src/coordinator.rs:223-248 | What every lane of the select does; a driver lane forwards only with the reserve free. |
| `Coordinator.Coordinator.Turn` | crates/philo-agent-runtime/src/coordinator.rs:194-269 | After every turn nothing that could start still waits, the published availability is current, and what is still staged found the outlet full. |
| `Coordinator.Coordinator.FinishEpoch` | crates/philo-agent-runtime/src/coordinator.rs:885-930 | Winding up terminates, starts and accepts nothing, abandons what is still in the driver channel, and reports the reason and the maintenance task that was running. |
| `Coordinator.Coordinator.DrainUntil` | crates/philo-agent-runtime/src/coordinator.rs:892-913 | Forwards at least once, even after the deadline; further rounds end with the channel, the deadline or a round without progress. |
| `Coordinator.Coordinator.ForwardWithin` | crates/philo-agent-runtime/src/coordinator.rs:249-264 | Forwards at most the budget, and that much unless the channel runs dry or the reserve is used up. |
| `Coordinator.Coordinator.SendOutbound` | crates/philo-agent-runtime/src/coordinator.rs:236-242 | The oldest staged event goes first, a transient only when nothing is staged. |
| `Coordinator.Coordinator.FlushBestEffort` | crates/philo-agent-runtime/src/coordinator.rs:1263-1266 | Afterwards staging is empty or the outlet full. |
| `Coordinator.Coordinator.OnlyFaultsAreDropped` | crates/philo-agent-runtime/src/coordinator.rs:749-754 | Of what handlers emit only a report of a driver fault is ever dropped for want of room, or a raced driver event while the epoch is wound up. Refused settlements stay in the ledger; events left in a channel that is let go are excluded. |
| `Coordinator.Coordinator.PublishAndFlush` | crates/philo-agent-runtime/src/coordinator.rs:266-268 | Availability is published when it changed, then everything goes out that the outlet takes. |
| `Coordinator.Coordinator.StopWithoutSink` | crates/philo-agent-runtime/src/coordinator.rs:1098-1100 | Without a consumer a running coordinator is shut down by force. |
| `Coordinator.Coordinator.Run` | crates/philo-agent-runtime/src/coordinator.rs:162-171 | A whole run keeps the invariant and makes progress, on every sequence of inputs; every settlement a driver reported is staged as reported or accounted for as abandoned, and its operation then stays stranded to the end. |
| `Coordinator.Coordinator.StoppedAnywhere` | crates/philo-agent-runtime/src/coordinator.rs:1172-1184 | For every point between two writes of every run: exactly-once after the epilogue if and only if no settlement is in hand there. |
| `Coordinator.Coordinator.OrderlyExit` | crates/philo-agent-runtime/src/coordinator.rs:885-930 | Between handlers nothing is in hand, so an orderly exit settles every accepted id once and no other. |
| `Coordinator.Coordinator.NothingLostNothingReordered` | crates/philo-agent-runtime/src/coordinator.rs:1127-1184 | Reliable events sent and staged are exactly those staged by the handlers, in order. |
| `Coordinator.Coordinator.AcceptedSplits` | crates/philo-agent-runtime/src/coordinator.rs:1172-1184 | Accepted ids are the disjoint union of the ledger and the settled ids. |
| `Coordinator.Coordinator.SettledOnceSoFar` | crates/philo-agent-runtime/src/coordinator.rs:966-990 | Nothing sent so far settles an operation twice. |
| `Coordinator.Coordinator.OneAtATime` | crates/philo-agent-runtime/src/coordinator.rs:370-436 | Never a driver and a maintenance task; queued ids lie in the ledger, and the active one if and only if its settlement is not staged; the ledger has at most queue_max + 1 entries. |
| `Coordinator.Coordinator.ActiveUntilSettled` | crates/philo-agent-runtime/src/coordinator.rs:966-990 | The active id lies in the ledger if and only if its settlement is not staged. |
| `Coordinator.Coordinator.SettledAnswer` | crates/philo-agent-runtime/src/coordinator.rs:438-446 | A cancel is answered AlreadySettled if and only if the operation is settled and fewer than 32 settlements were staged after its own. |
| `Coordinator.Coordinator.ForgottenAnswer` | crates/philo-agent-runtime/src/coordinator.rs:438-482 | A settled operation that is not the active one is answered AlreadySettled up to the 32nd settlement after its own, and as unknown from then on. |
| `Coordinator.Coordinator.DeliveredSettlement` | crates/philo-agent-runtime/src/coordinator.rs:966-990 | The settlement delivered for an operation is the one staged, and one made up as failed if and only if it is still in the ledger. |
| `Coordinator.Coordinator.ReportedSettlement` | crates/philo-agent-runtime/src/coordinator.rs:568-612 | Over a whole run, what is delivered for an operation mirrors the settlement its driver reported, except that it is made up as failed if and only if the report was abandoned or still waits in the channel. |
| `Coordinator.Coordinator.StrandedIsForced` | crates/philo-agent-runtime/src/coordinator.rs:966-990 | The event delivered for a stranded operation is its forced settlement. |
| `Coordinator.Coordinator.StartedInOrder` | crates/philo-agent-runtime/src/coordinator.rs:870-883 | Operations start in the order of their acceptance. |
| `CoordinatorRuns.DropsFaultReport` | crates/philo-agent-runtime/src/coordinator.rs:746-755 | A run in which the report of a driver fault is dropped: the reserve is free at the join and the outlet full, and the last event of the driver takes a slot. |
| `CoordinatorRuns.DropsRacedEvent` | crates/philo-agent-runtime/src/coordinator.rs:650-662 | A run in which a driver event that slips in behind the emptiness test is dropped. |
| `CoordinatorRuns.ForgetsTheOldest` | crates/philo-agent-runtime/src/coordinator.rs:1000-1009 | A run of 33 settlements after which a cancel of the oldest is answered as unknown, of the newest as settled. |
| `CoordinatorRuns.RunsThoughSettled` | crates/philo-agent-runtime/src/coordinator.rs:568-612 | A run in which the active operation is already settled and gone from the ledger. |
| `CoordinatorRuns.LosesReport` | crates/philo-agent-runtime/src/coordinator.rs:371-405 | A run in which a driver confirms and reports the cancellation of its operation, and an idle admission abandons the report: the operation is stranded. |
| `CoordinatorSteps.IdleAdmissionStrands` | crates/philo-agent-runtime/src/coordinator.rs:371-405 | An admission on an idle schedule strands exactly the operations still in the ledger, also one whose settlement waited in the channel that is replaced. |
| `CoordinatorSteps.ReleasedIsProgress` | crates/philo-agent-runtime/src/coordinator.rs:914-922 | The end of the epoch strands whatever still waits in the driver channel it lets go. |
| `CoordinatorSteps.ForwardedIsAccounted` | crates/philo-agent-runtime/src/coordinator.rs:568-612 | A forwarded settlement is staged as reported or, without room while the epoch is wound up, abandoned with its operation stranded; nothing stranded is settled. |
| `CoordinatorSteps.AccountedTrans` | crates/philo-agent-runtime/src/coordinator.rs:162-171 | So over any number of handlers: no report is forgotten, and what is stranded stays stranded. |
| `Supervisor.SuperviseEpoch` | crates/philo-agent-runtime/src/epoch.rs:241-306 | Drains staging and ledger, forces exactly the unsettled rest, sends the epilogue in order as far as it gets; each id settled at most once, and once if accepted and not in hand when everything got through. |
| `Supervisor.RunEpoch` | crates/philo-agent-runtime/src/epoch.rs:241-376 | A whole epoch on any inputs: every accepted operation is settled exactly once and nothing else is, the last snapshot shows the newest 32 settlements in the order of delivery, and every settlement reported by a driver is delivered as reported unless it was abandoned. |
| `Supervisor.CollectSettled` | crates/philo-agent-runtime/src/epoch.rs:272 | The ids settled by staged events. |
| `Supervisor.FilterForced` | crates/philo-agent-runtime/src/epoch.rs:273-276 | The leftover entries that no staged event settles, in order. |
| `Supervisor.BuildEvents` | crates/philo-agent-runtime/src/epoch.rs:326-376 | Staged, maintenance, forced, faults, then the end of the epoch; the snapshot keeps the newest 32 settlements. |
| `Supervisor.SendAll` | crates/philo-agent-runtime/src/epoch.rs:378-400 | A prefix gets through; complete exactly if all of it did or the consumer is gone. |
| `Coalescer.TransientCoalescer.Publish` | crates/philo-agent-runtime/src/transient.rs:383-404 | The new contents are those of the list specification: overwrite in place, or evict the oldest and append. |
| `Coalescer.TransientCoalescer.TakeOne` | crates/philo-agent-runtime/src/transient.rs:406-409 | Takes the slot published first. |
| `Coalescer.CoalescerRefines` | crates/philo-agent-runtime/src/transient.rs:383-414 | Over every sequence of publish, take and clear a text slot of two or more publishes is the first 4096 bytes of their concatenation, other kinds are latest-wins, in order of first publication. |
| `Coalescer.CoalescerBounded` | crates/philo-agent-runtime/src/transient.rs:397-403 | Keys stay distinct and, with capacity at least one, at most that many. |
| `Coalescer.TruncateTwice` | crates/philo-agent-runtime/src/runtime_event.rs:104-109 | Cutting at every append is cutting once at the end. |
| `DriverStream.TransientDriverState.Publish` | crates/philo-agent-runtime/src/transient.rs:70-82 | One publish into the open slots. |
| `DriverStream.TransientDriverState.SealModelStream` | crates/philo-agent-runtime/src/transient.rs:136-154 | Freezes the open slots: merged into the sealed ones of the same call, or parking those. |
| `DriverStream.TransientDriverState.DrainModelStream` | crates/philo-agent-runtime/src/transient.rs:197-205 | Gives out parked, sealed and open generations in the order of their sealing and empties the store. |
| `DriverStream.NothingLost` | crates/philo-agent-runtime/src/transient.rs:136-154 | If open slots are sealed before another call publishes and at most eight sealed generations wait, all text is held in order and of every call exactly its own reasoning. |
| `DriverStream.NinthPushesOut` | crates/philo-agent-runtime/src/transient.rs:145-150 | Only a ninth undrained generation pushes one out, the oldest. |
| `DriverStream.StepCutsExactly` | crates/philo-agent-runtime/src/transient.rs:215-237 | One publish or seal of the limited store is the one without the limit, cut, if and only if it brings no first reasoning delta beyond 4096 bytes. |
| `DriverStream.RunCuts` | crates/philo-agent-runtime/src/transient.rs:215-237 | Over every sequence the limited store and the unlimited one differ at most beyond 4096 bytes, and the first is the second one cut if and only if it holds no overlong reasoning. |
| `DriverStream.OverlongIsHeld` | crates/philo-agent-runtime/src/transient.rs:224-237 | One first reasoning delta of more than 4096 bytes is held uncut, until the next delta of its call. |
| `Identifiers.DecimalValue` | crates/philo-agent-kernel/src/transition.rs:102-114 | Decimal printing is injective: reading it back gives the number. |
| `Identifiers.ScopedInjective` | crates/philo-agent-kernel/src/transition.rs:102-114 | `{turn}:{tag}:{n}` determines turn and n, whatever the turn id contains. |
| `KernelProtocol.ValidCallsUnique` | crates/philo-agent-kernel/src/tool_loop.rs:4-15 | Counting distinct ids is the same as comparing them pairwise. |
| `KernelProtocol.ContainedCallsExtracted` | crates/philo-agent-kernel/src/protocol.rs:214-230 | A tool call is contained exactly if the extracted batch is not empty. |
| `Kernel.NextInv` | crates/philo-agent-kernel/src/transition.rs:6-98 | Every input, accepted or not, keeps the kernel invariant. |
| `Kernel.RunInv` | crates/philo-agent-kernel/src/transition.rs:6-98 | So it holds in every reachable state: numbered effects, transcript grammar, counts, the outstanding effect. |
| `Kernel.RequestCarriesTranscript` | crates/philo-agent-kernel/src/transition.rs:283-316 | The messages of every model request are the fold of all observations so far: the user message and complete rounds; tools are on offer exactly while rounds are left. |
| `Kernel.BatchCarriesLastRequest` | crates/philo-agent-kernel/src/transition.rs:193-233 | While tools run the transcript ends in one open round whose request is what runs, each id once. |
| `Kernel.EffectsNumbered` | crates/philo-agent-kernel/src/transition.rs:100-114 | The k-th effect of a turn has number k, so no two effects share an id. |
| `Kernel.StaleRejected` | crates/philo-agent-kernel/src/transition.rs:167-169 | An answer to an earlier effect is rejected with everything unchanged. |
| `Kernel.TerminatedIsFinal` | crates/philo-agent-kernel/src/transition.rs:82-97 | After termination nothing is accepted; the rejection tells a repeated answer from any other input. |
| `Kernel.OutcomeIsObserved` | crates/philo-agent-kernel/src/transition.rs:235-254 | The last observation of a terminated turn is its outcome. |
| `Kernel.BoundedWork` | crates/philo-agent-kernel/src/transition.rs:176-194 | At most 2 max + 2 accepted inputs, max + 1 model requests and max batches, whatever is fed in. |
| `Kernel.NoOverflow` | crates/philo-agent-kernel/src/transition.rs:102-114 | No 32-bit number overflows if max_tool_rounds is at most 2^31 - 2. |
| `Kernel.OverflowBeyond` | crates/philo-agent-kernel/src/transition.rs:102-107 | The bound is exact: for every larger limit some turn overflows. |
| `ModelStreamConsumer.AssembledIffWellFormed` | crates/philo-agent-runtime/src/engine/model_call.rs:116-243 | An attempt assembles an answer exactly from streams with one completion, at the end, and at most one response start; the answer is what the completion carries. |
| `TurnLog.StoredResults` | crates/philo-agent-runtime/src/engine/tool_batch.rs:240-247 | One durable result per call, in call order, stores exactly the kernel messages of the results. |
| `TurnLog.BackedGrows` | crates/philo-agent-runtime/src/operation/publisher.rs:12-15 | An announcement backed by the log stays backed. |
| `TurnDriver.Answered` | crates/philo-agent-runtime/src/engine/mod.rs:308-349 | A completed model call with tool calls always yields their batch effect, the kernel following the log. |
| `TurnDriver.Resumed` | crates/philo-agent-runtime/src/engine/mod.rs:409-444 | Results in call order are never rejected and always lead to the next model request with the full transcript. |
| `TurnDriver.Stoppable` | crates/philo-agent-runtime/src/engine/settlement.rs:40-51 | Cancelling or failing the outstanding effect is always accepted. |
| `TurnDriver.TurnDriver.Fail` | crates/philo-agent-runtime/src/engine/settlement.rs:102-154 | The kernel accepts the termination; the failure is announced and reported confirmed exactly if its entries are durable, otherwise the log is untouched. |
| `TurnDriver.TurnDriver.Cancel` | crates/philo-agent-runtime/src/engine/settlement.rs:34-97 | Reported cancelled only with the durable fact and the marks in one commit, and then with every completion announced before; otherwise the failure path. |
| `TurnDriver.TurnDriver.RunModelCall` | crates/philo-agent-runtime/src/engine/model_call.rs:63-243 | One attempt, with at most one request, of the messages given; only a cancellation settles; otherwise log and kernel are untouched. |
| `TurnDriver.TurnDriver.Consume` | crates/philo-agent-runtime/src/engine/model_call.rs:116-243 | The reading loop is the reading rule and passes on exactly the events heard until it stops. |
| `TurnDriver.TurnDriver.RunWithRecovery` | crates/philo-agent-runtime/src/engine/mod.rs:464-529 | At most max_retries + 1 attempts, one if retrying is off, all with the same request and nothing durable in between. |
| `TurnDriver.TurnDriver.ExecuteSerially` | crates/philo-agent-runtime/src/engine/tool_batch.rs:51-118 | Calls start once each and in order; a call that stops without a cancellation is a fault, an unfinished one otherwise means cancellation. |
| `TurnDriver.TurnDriver.ExecuteInParallel` | crates/philo-agent-runtime/src/engine/tool_batch.rs:122-217 | The same for up to `limit` calls in flight finishing in any order, each outcome in the slot of its own call. |
| `TurnDriver.TurnDriver.RunBatch` | crates/philo-agent-runtime/src/engine/tool_batch.rs:36-49 | Runs only when its request is the last durable fact; comes back with all results durable in call order, or settled. |
| `TurnDriver.TurnDriver.CommitResults` | crates/philo-agent-runtime/src/engine/tool_batch.rs:219-288 | Exactly the completions of the batch are published, in call order, and only after its results are durable. |
| `TurnDriver.TurnDriver.SettleSuccess` | crates/philo-agent-runtime/src/engine/mod.rs:534-584 | Reported succeeded only with the durable answer; otherwise the old outstanding effect is failed. |
| `TurnDriver.TurnDriver.Round` | crates/philo-agent-runtime/src/engine/mod.rs:264-432 | One round: the kernel passes the answer only after the commit; every failure names the outstanding effect; no arm for a missing effect is reachable. |
| `TurnDriver.TurnDriver.RunTools` | crates/philo-agent-runtime/src/engine/mod.rs:338-444 | Commit, batch, commit, next request: in this order. |
| `TurnDriver.TurnDriver.CommitBatch` | crates/philo-agent-runtime/src/engine/mod.rs:353-383 | The durable request stores exactly the blocks the model gave. |
| `TurnDriver.TurnDriver.Resume` | crates/philo-agent-runtime/src/engine/mod.rs:405-444 | The next request shows the model what is durable. |
| `TurnDriver.TurnDriver.CancelZeroTrace` | crates/philo-agent-runtime/src/engine/mod.rs:212-218 | A cancellation before the first commit leaves no durable trace. |
| `TurnDriver.TurnDriver.Drive` | crates/philo-agent-runtime/src/engine/mod.rs:122-456 | Settles exactly once, last and truthfully; write-ahead throughout; at most (max_tool_rounds + 1) * (max_retries + 1) attempts. |
| `TurnDriver.TurnDriver.Prepare` | crates/philo-agent-runtime/src/engine/mod.rs:128-159 | Before the turn stale turns are sealed and the context may be compacted; if that settles the operation the turn leaves no trace. |
| `TurnDriver.TurnDriver.SealStaleTurns` | crates/philo-agent-runtime/src/engine/seal.rs:29-125 | Each stale turn is sealed by a commit of its own; they are announced only when all are sealed, and a failure keeps those that were. |
| `TurnDriver.TurnDriver.CompactFirst` | crates/philo-agent-runtime/src/engine/compaction.rs:25-107 | A failed compaction does not stop the turn; a cancellation seen there does, without a trace. |
| `TurnDriver.TurnDriver.Loop` | crates/philo-agent-runtime/src/engine/mod.rs:261-455 | Terminates: each round uses one of the allowed rounds. |
| `TurnDriver.TurnDriver.SettlesLast` | crates/philo-agent-runtime/src/operation/publisher.rs:206-222 | A finished driver has published exactly one settlement, of its own operation, as its last event. |
| `Backoff.BackoffDelay` | crates/philo-agent-runtime/src/config.rs:113-128 | Between three quarters of the bounded exponential and all of it. |
| `Backoff.BoundedIsCappedExponential` | crates/philo-agent-runtime/src/config.rs:114-119 | Saturation never shows: base times a power of two, capped, never below base, never decreasing with the retry number. |
| `Backoff.ShuffleNeverZero` | crates/philo-agent-runtime/src/config.rs:146-149 | The generator never falls into its zero state. |
| `Backoff.JitterBelow` | crates/philo-agent-runtime/src/config.rs:133-152 | The offset, cut to 32 bits, stays below its bound. |
| `JsonGrammar.JsonParser.ParseObject` | crates/philo-tools/src/definition.rs:204-224 | Accepts and stops exactly where the grammar function says. |
| `JsonGrammar.JsonParser.ParseArray` | crates/philo-tools/src/definition.rs:225-245 | So do arrays. |
| `JsonGrammar.JsonParser.ParseString` | crates/philo-tools/src/definition.rs:246-269 | So do strings. |
| `JsonGrammar.JsonParser.ParseNumber` | crates/philo-tools/src/definition.rs:293-331 | So do numbers. |
| `JsonGrammar.JsonParser.ParseValue` | crates/philo-tools/src/definition.rs:270-282 | So do values; the mutual recursion terminates. |
| `JsonGrammar.JsonParser.AcceptsObject` | crates/philo-tools/src/definition.rs:164-176 | The validator accepts exactly the documents of the grammar. |
| `JsonScanner.PairIsScalar` | crates/philo-tools-std/src/args.rs:209-222 | A surrogate pair is always a scalar value beyond the basic plane. |
| `JsonScanner.Scanner.ParseString` | crates/philo-tools-std/src/args.rs:165-205 | Text, end and failures of a scanned string are those of the scanning function; terminates. |
| `JsonScanner.Scanner.ParseUnicodeEscape` | crates/philo-tools-std/src/args.rs:207-224 | Likewise for unicode escapes, including where a bad one leaves the scanner. |
| `JsonScanner.Scanner.SkipBrackets` | crates/philo-tools-std/src/args.rs:252-275 | Likewise for skipping by counting one kind of bracket. |
| `JsonScanner.Scanner.SkipOver` | crates/philo-tools-std/src/args.rs:234-250 | Likewise for skipping a value. |
| `JsonScanner.Scanner.ExtractString` | crates/philo-tools-std/src/args.rs:49-91 | Likewise for fetching a string field. |
| `JsonScanner.Scanner.RawValue` | crates/philo-tools-std/src/args.rs:94-131 | Likewise for the raw text of a field. |
| `JsonAgreement.StringsAgree` | crates/philo-tools-std/src/args.rs:165-205 | A string the validator accepts is read by the scanner to the same end if and only if its escapes are good, and a bad one is noticed before the end. |
| `JsonAgreement.SkipStringExact` | crates/philo-tools-std/src/args.rs:234-236 | A string value is skipped to its end if and only if none of its escapes is bad. |
| `JsonAgreement.SkipAgrees` | crates/philo-tools-std/src/args.rs:234-275 | On well-escaped documents the scanner skips every value to exactly where the validator ended it. |
| `JsonAgreement.CountValue` | crates/philo-tools-std/src/args.rs:252-275 | A complete value is balanced in each kind of bracket by itself, whatever the other kind does. |
| `JsonAgreement.ExtractIsFirstMember` | crates/philo-tools-std/src/args.rs:49-131 | A field is the first member of its name as the validator saw them: decoded text, not a string, or raw text. |
| `JsonAgreement.FirstFieldMeans` | crates/philo-tools-std/src/args.rs:49-91 | Missing if and only if no member has the name; otherwise the first that has. |
| `JsonAgreement.StrictIsWellEscaped` | crates/philo-tools-std/src/args.rs:207-232 | Strings as in section 7 of RFC 8259 with paired surrogates are well escaped in this sense. |
| `JsonAgreement.PlusAccepted` | crates/philo-tools-std/src/args.rs:226-232 | The scanner is more lenient: a plus sign passes for a hexadecimal digit. |
| `JsonAgreement.BadEscapeHidesFields` | crates/philo-tools-std/src/args.rs:234-236 | With a bad escape in an accepted document the fields behind it are not found. |
| `JsonDocument.FoundIffAsciiLead` | crates/philo-tools/src/invocation.rs:11-17 | For every accepted argument text with well-escaped strings: fields are found as the validator saw them if and only if only ASCII white space stands in front, or it has no members; otherwise every field is missing. |
| `JsonDocument.PartIsEnough` | crates/philo-tools-std/src/args.rs:49-131 | Behind ASCII white space, and whatever white space follows, every field is read as in the text the validator looked at. |
| `JsonDocument.TrimIsValid` | crates/philo-tools/src/definition.rs:164-165 | Trimming Unicode white space cuts no character. |
| `JsonDocument.AcceptedYetMissing` | crates/philo-tools/src/invocation.rs:11-17 | A no-break space and `{"a":""}`: accepted, and the member is not found. |
| `ReplayStore.MemoryModelReplayStore.Commit` | crates/philo-model/src/replay.rs:186-207 | Idempotent for the same record, a conflict for another one under its id, a quota otherwise; ids stay unique. |
| `ReplayStore.MemoryModelReplayStore.Remove` | crates/philo-model/src/replay.rs:209-224 | Removes exactly the named records of one session. |
| `ReplayStore.MemoryModelReplayStore.DeleteSession` | crates/philo-model/src/replay.rs:226-232 | Removes one session and no other. |
| `ReplayMatching.SortedFacts` | crates/philo-model/src/replay.rs:968-974 | The records are put in order of revision, time and call without losing any. |
| `ReplayMatching.FirstFree` | crates/philo-model/src/replay.rs:1003-1012 | The first record that fits and is unused. |
| `ReplayMatching.TakeFits` | crates/philo-model/src/replay.rs:1003-1013 | One message keeps the matching sound, greedy and without repetition. |
| `ReplayMatching.TakeRestores` | crates/philo-model/src/replay.rs:1014-1051 | One message keeps the continuation that of the newest matched V2 record, or none. |
| `ReplayMatching.WalkToOk` | crates/philo-model/src/replay.rs:993-1052 | All of it over every history. |
| `ReplayCoordinator.ReplayCoordinator.Load` | crates/philo-model/src/replay.rs:923-1111 | Corrupt, failed and successful loads; what is matched, continued, added from this process and removed. |
| `ReplayCoordinator.LoadedWalk` | crates/philo-model/src/replay.rs:938-1052 | Each generation is matched at most once, never expired, newer, invalidated or a tombstone, and never collected. |
| `ReplayCoordinator.TransientOk` | crates/philo-model/src/replay.rs:1057-1091 | Process-local generations never displace a durable one and serve one message each. |
| `ReplayCoordinator.CollectionSparesUsed` | crates/philo-model/src/replay.rs:1093-1106 | Garbage collection spares every unexpired record in use. |
| `ReplayCoordinator.TombstoneFollowsTarget` | crates/philo-model/src/replay.rs:1281-1311 | A tombstone passes the expiry and revision filters exactly when its target does. |
| `ReplayCoordinator.BuriedForGood` | crates/philo-model/src/replay.rs:923-1133 | Once its tombstone is stored no load matches a generation again, after any sequence of loads, commits, invalidations and restarts, until its session is deleted. |
| `ReplayCoordinator.BuriedNeverMatches` | crates/philo-model/src/replay.rs:987-1006 | One load: with its tombstone stored, or expired, a generation is matched to nothing. |
| `ReplayCoordinator.CollectionKeepsLaid` | crates/philo-model/src/replay.rs:962-967 | One collection removes no tombstone before its target has expired. |
| `ReplayCoordinator.ReplayCoordinator.InvalidateContinuation` | crates/philo-model/src/replay.rs:1113-1133 | Invalid at once in memory, and by a tombstone in the store if that accepts it. |
| `ComponentEncoding.EncodeComponent` | crates/philo-model/src/replay.rs:1731-1743 | The encoding loop is the encoding function. |
| `ComponentEncoding.DecodeComponent` | crates/philo-model/src/replay.rs:1745-1766 | The decoding loop is the decoding function; terminates. |
| `ComponentEncoding.DecodeEncode` | crates/philo-model/src/replay.rs:1731-1766 | Decoding undoes encoding for every string. |
| `ComponentEncoding.AcceptedIffEncoding` | crates/philo-model/src/replay.rs:1745-1766 | A name is accepted if and only if it is the encoding of a string, which is then what it decodes to. |
| `ComponentEncoding.NamesNeverCollide` | crates/philo-model/src/replay.rs:1727-1743 | Distinct strings get distinct names, even where case is ignored. |
| `ComponentEncoding.NamesAreSafe` | crates/philo-model/src/replay.rs:1731-1743 | Names are made of lower-case letters, digits, `-`, `_`, `%` and `A` to `F`. |
| `CancelToken.InvStep` | crates/philo-tools/src/cancel.rs:40-53 | Every atomic step of a poll or a request keeps: a registered waker waits, is being woken, or was woken. |
| `CancelToken.OnePlaceStep` | crates/philo-tools/src/cancel.rs:40-53 | Every atomic step keeps each waker in one place: once in the list, once in the hands of one request, or woken. |
| `CancelToken.ReachableInv` | crates/philo-tools/src/cancel.rs:90-107 | So both hold for any number of polls and requests interleaved in any way. |
| `CancelToken.NoLostWakeup` | crates/philo-tools/src/cancel.rs:40-107 | In every reachable state with a finished request a pending poll has been woken if and only if no other request still holds its waker. |
| `CancelToken.LaterPollsAreReady` | crates/philo-tools/src/cancel.rs:90-107 | After the flag is set every poll that looks is ready. |
| `CancelToken.FinishedIsNotEnough` | crates/philo-tools/src/cancel.rs:40-53 | With two requests one can finish before the other has woken a pending poll. |
| `Utf8.Decoder.Take` | crates/philo-tools-std/src/shell.rs:401-419 | Gives out the whole characters at hand, drops an ill-formed sequence behind them, keeps the rest. |
| `Utf8.Decoder.TakeAll` | crates/philo-tools-std/src/shell.rs:401-419 | Over any chunks of a valid stream: the longest whole prefix is given out and the incomplete tail is pending. |
| `Utf8.ChunkInvariant` | crates/philo-tools-std/src/shell.rs:401-419 | That prefix is the longest, and the tail has at most three bytes. |
| `Utf8.Decoder.Collect` | crates/philo-tools-std/src/shell.rs:289-325 | What is shown of a whole stream, its flush at the end included, is the shown text of its chunks. |
| `Utf8.CutsMatterIff` | crates/philo-tools-std/src/shell.rs:355-419 | What is shown of a stream given to take_utf8 in slices of any length is the same for every way of slicing it if and only if no second ill-formed sequence can be recognised in a later slice than the first. |
| `Utf8.ReadsMatterIff` | crates/philo-tools-std/src/shell.rs:281-325 | For reads of at most 8192 bytes the same condition is exact of every stream that one read can hold, and sufficient for longer ones. |
| `Utf8Reads.ShownIsMarked` | crates/philo-tools-std/src/shell.rs:355-419 | What is shown is the text with the first ill-formed sequences gone and those left over at the end replaced. |
| `Utf8Reads.BytesLeaveLeast` | crates/philo-tools-std/src/shell.rs:401-419 | No way of reading leaves fewer ill-formed sequences over than reading byte by byte. |
| `Utf8Reads.ReadsMatterExactly` | crates/philo-tools-std/src/shell.rs:281-325 | For streams of any length: what is shown is the same for every way of reading them, at most 8192 bytes at a time, if and only if from every place on the reads that must follow keep up with the ill-formed sequences still to come. |
| `Utf8Reads.FarApart` | crates/philo-tools-std/src/shell.rs:281-325 | Two bad bytes with more than a read between them: reads of 8192 bytes always show the same, slices of any length need not. |
| `Utf8.CutsMatter` | crates/philo-tools-std/src/shell.rs:355-419 | Two bytes 0xFF in one read show one replacement character, in two reads nothing. |
| `Utf8.DecodesToScalar` | crates/philo-tools-std/src/args.rs:194-202 | A well-formed sequence is a scalar value in its shortest form (section 4 of RFC 3629). |
| `OutputTail.TruncateOutput` | crates/philo-tools-std/src/shell.rs:451-478 | Keeps the longest run of last lines within both budgets, or the longest tail of the last line; reports any cut, and one that is none exactly for a single line of the byte budget. |
| `OutputTail.CutLine` | crates/philo-tools-std/src/shell.rs:465-469 | The longest suffix within the budget that cuts no character. |
| `OutputTail.WholeKeptYetTruncated` | crates/philo-tools-std/src/shell.rs:451-478 | Everything is kept and a cut still reported if and only if the output is one line of exactly the byte budget; its line break is what is counted. |
| `OutputTail.WholeLines` | crates/philo-tools-std/src/shell.rs:461-463 | Two such outputs: a line of three bytes and a line of one, each under a budget of its own length. |
| `PagedReader.ReadPage` | crates/philo-tools-std/src/read.rs:147-215 | A page holds as many rows as its budgets allow and says where to go on unless it shows the last line. |
| `PagedReader.ReadAll` | crates/philo-tools-std/src/read.rs:170-215 | Following the offsets shows every row once in order, within as many calls as lines, if and only if each row fits by itself; otherwise it stops at the first that does not. |
| `GenerationCache.SessionGenerationCache.Get` | crates/philo-agent-service/src/generation_cache.rs:36-45 | Returns the last value put and makes the key the most recently touched. |
| `GenerationCache.SessionGenerationCache.Put` | crates/philo-agent-service/src/generation_cache.rs:50-61 | Replaces, or inserts and, when full, drops the least recently touched key. |
| `GenerationCache.SessionGenerationCache.Remove` | crates/philo-agent-service/src/generation_cache.rs:65-67 | Removes one key and keeps the order of the others. |
| `GenerationCache.SessionGenerationCache.EvictLru` | crates/philo-agent-service/src/generation_cache.rs:74-85 | The smallest stamp belongs to the head of the recency list. |
| `GenerationCache.AfterIsFaithful` | crates/philo-agent-service/src/generation_cache.rs:36-85 | After any history the list holds each key at its last use, with the value last put, in order of last use. |

## Left out

- Coordinator.Coordinator.OnlyFaultsAreDropped: does not count driver events that are still in a channel when it is replaced or the epoch ends; they were never received, and `abandoned` lists them.
- Snapshots, phases, diagnostics ids, reply channels and availability wording: they carry no decision of the modelled handlers.
- Task scheduling: which lane of a select fires is an input of `Coordinator.Coordinator.Turn`, and a lane that is not ready does nothing.
- Wall-clock deadlines are integers, and every round of the final drain is assumed to take time.
- `debug_assert` in `emit` and `publish`: modelled as in a release build, where a full staging queue drops the event.
- The driver task as the coordinator sees it sends at most one settlement, of its own operation; `TurnDriver.TurnDriver.SettlesLast` proves this of the engine.
- Which transients a driver event releases: any of them may be published at that point, so the model allows more than the code does.
- Re-publishing a refused transient uses the current operation's key, as in the code, so the facts about slots are stated for the store by itself.
- Of reading the session context, of generating a summary and of choosing what it covers only the outcomes are modelled, not the content.
- A session commit either appends all its entries or none; a store that reports a failure after writing is not modelled.
- Tool execution beyond its outcome per call, tool progress slots, the phase slot and the wake-up of the driver's transient store.
- `user_message` validation: both layers enforce the same rule, and the kernel message is taken as given.
- The capture and commit of a new replay generation, the file-backed store and its actor, and the JSON form of the records: a record either parses or does not.
- Digests are opaque functions; nothing is claimed of their preimages.
- `raw_value` trims its result and checks it as UTF-8 again; on documents the validator accepts neither changes anything.
- Parsing of numbers and booleans from the raw text of a field, and the schema check of required names.
- The thread-local seed of the backoff generator: any state is possible.
- GenerationCache.SessionGenerationCache.Put: states the recency order only below saturation of the 64-bit counter, beyond which stamps repeat and the code itself loses the order.
- Merging of captured output, display cards and result texts of the shell and read tools.
