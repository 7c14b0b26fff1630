# SimiClaw runtime: model and proofs

A Dafny model of the SimiClaw agent runtime and proofs of what it promises. `dafny verify dfyconfig.toml`
checks everything.

## What is modelled

| files | subject |
|---|---|
| `Store`, `Repository` | the tables and every writer transaction: each transaction as a function of the tables, and the imperative `RuntimeRepository` proved to compute it |
| `Protocol`, `Settle`, `Timed`, `Projection`, `Ingest`, `Outbox`, `Retry`, `Services` | the event, run and outbox protocol as a state machine whose steps are taken in any order: executors in flight, late finalizers, crashes, recovery on a stale selection, the delivery worker; what a Finalize leaves behind; the sessions projection; idempotent ingest; the services as they call the repository |
| `Queue`, `Hub`, `HubDue`, `HubLive`, `HubOrder`, `StreamHub`, `Wakeup` | the stream hub: subscriptions with drop rules and in-place compaction, what is due to a subscriber and what one that keeps up gets, replay, sequence numbers, the one-slot wakeup channel, the frame loop of a chat stream |
| `Sse`, `Chat` | server-sent-event framing, the chunked web parser, the command-line reader, and a chat stream end to end |
| `Lanes` | the keyed lane scheduler in small steps: retain, take token, return token, drop |
| `Limiter`, `LimiterGc`, `LimiterBound` | the token bucket with its garbage collection |
| `Prompt`, `PromptCache` | static prompt prefixes: fingerprints, loading, and the double-checked cache |
| `Agent`, `History` | the bounded tool loop with its policies, the history repair and the prompt window |
| `Pages` | keyset pagination of events, sessions and message history |
| `Baseline`, `Pairing`, `Guardrails` | greedy baseline matching and when it is optimal, baseline sync, report and summary |
| `Basics`, `Sorting` | shared types, text trimming, sorting |

Code that changes state is modelled by classes and methods with loops. Each is proved equal to a
specification function, and the theorems about runs are proved about those functions. A run is a sequence of
steps; a step that is not enabled changes nothing, so "every sequence of steps" covers every interleaving.

## Main results

- With no timing assumption at all, started runs and event status always fit together
  (`Protocol.RunSound`), the claim guard never blocks a runnable event, and terminal events stay terminal.
- `Finalize` has no status guard. `Timed` proves the argument it rests on: an executor commits only before a
  context deadline that starts before the claim timestamp, and recovery waits one lease after that timestamp.
  Under it, a run is started exactly while its event is processing and each event has at most one outbox row,
  which its columns name (`Timed.OneMirroredOutboxRowPerEvent`). Without it, outbox and events stay mirrored
  exactly when the event has no row yet, and a concrete run ends with two rows.
- The Finalize of an execution leaves exactly what its result calls for, or nothing, in every run
  (`Settle.FinishSettles`), and what is published says so (`Services.Process`). No event and no outbox row stays
  stuck (`Timed.AbandonedEventIsFreed`, `Outbox.NoRowStaysStuck`).
- Every session row equals the aggregate of the facts after every step of every run (`Projection.SessionsAgree`).
- No subscriber loses an event that must be kept, in any run, where what is due is told from the calls and the
  returned replays alone (`HubDue.NothingDueIsLost`); one that keeps up gets every event
  (`HubLive.NothingIsDroppedIfItKeepsUp`), and a replay is what was published (`HubLive.ReplayIsWhatWasPublished`).
  A chat stream is read back by both clients as exactly what was written (`Chat.StreamChat`). No wakeup is lost
  exactly for at most one consumer (`Wakeup.NoLostWakeupIffOneConsumer`).
- Mutual exclusion and exact reference counts of lanes over every interleaving (`Lanes.OneLeasePerKey`,
  `Lanes.CountsAreExact`).
- The limiter's collection is unobservable, and its bound of burst + rate * window holds, exactly when
  burst <= 300 * rate (`LimiterGc.CollectionUnobservableIff`, `LimiterBound.BoundHoldsIff`).
- Equal snapshots build equal prompts (`Prompt.SnapshotDeterminesBuild`), and a cached prefix equals a fresh
  build when no fingerprint returns to an old value during a build (`PromptCache.Builder.RenderStaticPrefix`);
  the exact condition over a history is `PromptCache.CachingIsFaithfulIffReadsHold`.
- Every tool message of an agent run holds the tool's result exactly when the call ran (`Agent.Execute`,
  `Agent.RanIff`).
- Every agent transcript survives the history repair whole, and a tail window of it loses exactly the tool
  messages whose call was cut off (`History.AgentRunSurvives`, `History.PromptSeesTail`).

## Where code and expectation differ

The model follows the code. Each case is a proved lemma.

- The first retry delay is not capped: with base > max it exceeds max and then shrinks
  (`Retry.DelayIsCappedDoubling`, `Retry.DelayGrowsIffBaseWithinMax`).
- A single finalizer that commits behind its deadline can give an event a second outbox row
  (`Timed.LateFinalizerDuplicatesOutbox`); it does so exactly when the event has one already
  (`Timed.FinalizeKeepsMirrorIffNoRowYet`).
- Two consumers of one subscription can lose a wakeup (`Wakeup.NoLostWakeupIffOneConsumer`). The chat stream
  handler, which is the only caller, is one consumer.
- An event that is not terminal but handed to `PublishTerminal` makes later events unseen
  (`HubDue.NothingIsLostIffTerminalsAreTerminal`). The observer, its only caller, hands over terminal ones.
- An event published behind a terminal one is replayed before it with a higher number
  (`HubOrder.LateEventBreaksOrder`, `HubOrder.LateEventIsReplayedFirst`).
- With burst > 300 * rate an idle key gets its full burst back too early (`LimiterBound.SlowRefillExceedsBound`).
- A file that changes and changes back during a build leaves a wrong cache entry
  (`PromptCache.ReturningContextFileBreaksIff`).
- The cron_fire allowlist goes by the exact payload type and the budget by a trimmed, case-folded one
  (`Agent.RestrictedIffExactType`).
- A page anchor without a time or with a blank id is ignored and starts the walk over
  (`Pages.AnchorLeadsOnIffUsable`).
- Greedy baseline matching can miss a pairing that exists (`Pairing.GreedyIsOptimalIffNoTheft`).

## Assumptions

- Times are integers, in nanoseconds. The code stores RFC3339Nano text, whose order differs from the order of
  time within a second; the model assumes the stored order is the order of time. Pagination only needs the
  stored key order to be total.
- Identifiers derived from the clock (`evt_`, `ses_`, `out_`) are that time; run ids are their position in the
  order of text. A key that is already taken rolls the transaction back, as the unique keys of
  `internal/store/schema.sql` do.
- `Timely` in `Timed.dfy` states what clocks and contexts guarantee: a claim's context began no later than its
  timestamp, a Finalize commits only while its context is alive, and the sweep's cutoff lies in the past.
- SHA-256 sums are injective. The skill-file parser, lower-casing and the renderer are functions of their
  arguments.
- Model replies, tool results, send results, failing database calls and what a wait on a subscription ends
  with are parameters.

## Model

| member | source | states |
|---|---|---|
| `Repository.RuntimeRepository.PersistEvent` | internal/store/tx/ingest_event.go:17-119 | outcome and whole new state, row by row: a known key with the same hash gives the first event back as a duplicate, a known key with another hash is a conflict, a new key creates the received event, its key row and a missing session together, and a collision leaves everything as it was |
| `Repository.RuntimeRepository.ResolveSession` | internal/store/projections/sessions.go:13-42 | an existing session keeps its row and id, a missing one gets an empty row under the new id, and no other row changes |
| `Repository.RuntimeRepository.MarkEventQueued` | internal/store/tx/ingest_event.go:121-131 | a received event becomes queued; an event in any other status, every other event and every other table stay as they were |
| `Repository.RuntimeRepository.ListRunnable` | internal/store/tx/claim_work.go:15-51 | the received and queued events, oldest first by updated_at and then event_id, no repeats, at most the limit (64 when none is given), and nothing older is left out |
| `Repository.RuntimeRepository.ClaimWork` | internal/store/tx/claim_work.go:53-198 | a claim goes through exactly for a received or queued event with no started run and a fresh run id; then the event is processing since now under that run, whose row is started, and nothing else differs |
| `Repository.RuntimeRepository.RecoverExpiredProcessing` | internal/store/tx/recover_processing.go:23-82 | selects, oldest first, exactly the processing events whose processing_started_at, or else updated_at, is at or before the cutoff, then runs one transaction each up to the first one that fails |
| `Repository.RuntimeRepository.RecoverOne` | internal/store/tx/recover_processing.go:48-76 | every started run of the event is failed now, the event waits again without its start time if it is still processing, and nothing else changes |
| `Repository.RuntimeRepository.Finalize` | internal/store/tx/finalize_run.go:15-147 | succeeds exactly when all its keys are free; then messages, run, outbox row, event and session projection are all written, otherwise nothing is |
| `Repository.RuntimeRepository.CountMessages` | internal/store/projections/sessions.go:54-62 | counts the visible user, assistant and tool messages of the session key |
| `Repository.RuntimeRepository.ScanCompleted` | internal/store/projections/sessions.go:63-84 | the sums of the three token columns over the completed runs, and the run that is last by finished_at and then run_id |
| `Repository.RuntimeRepository.RecomputeSessionAggregate` | internal/store/projections/sessions.go:44-107 | the session row becomes the aggregate of the facts for its key and keeps its session id; without a completed run its last activity is now; a missing row stays missing and other rows stay as they were |
| `Repository.RuntimeRepository.RecoverExpiredSending` | internal/store/tx/outbox.go:13-67 | exactly the rows sending under a lock at or before the cutoff wait for a retry now and their events say so; afterwards no sending row has such a lock, and every other row and event is unchanged |
| `Repository.RuntimeRepository.ClaimRuntimeOutbox` | internal/store/tx/outbox.go:69-120 | claims the pending or waiting row that is due and first by next_attempt_at and then outbox_id, locking it now, or nothing when none is due |
| `Repository.RuntimeRepository.FailOutboxSend` | internal/store/tx/outbox.go:122-151 | one more attempt, the row unlocked and dead or waiting until the given time, its event saying so, and nothing else changed |
| `Repository.RuntimeRepository.CompleteOutboxSend` | internal/store/tx/outbox.go:153-176 | the row unlocked and sent with its attempts kept, its event saying so, and nothing else changed |
| `Protocol.BuildFinalize` | internal/runtime/kernel/finalize.go:10-60 | the run fails exactly if the execution failed; the event is failed, else suppressed, else processed accordingly; a delivery goes out exactly if the execution neither failed nor was suppressed and has one that is not blank, with that body; tokens, model and messages are the execution's |
| `Settle.FinalizeSettles` | internal/store/tx/finalize_run.go:15-147 | from the result alone: the transaction commits exactly if its message ids are new and different and the outbox id it needs is free; then run, event, outbox row and stored messages are the ones the result calls for, field by field, and otherwise nothing changes |
| `Settle.FinishSettles` | internal/runtime/kernel/finalize.go:10-60 | over every run, late finalizers included: the Finalize of an execution in flight leaves the run, the event, at most one new pending outbox row and the messages its result calls for, or changes nothing because an id is taken |
| `Protocol.RunSound` | internal/store/tx/claim_work.go:82-198 | in every run of any steps (stale recovery, late finalizers, crashes): a started run belongs to an event that is not received or queued, an event has at most one started run, and a processing event has its own |
| `Protocol.RunnableIsClaimable` | internal/store/tx/claim_work.go:85-135 | the no-started-run guard never blocks a runnable event, in any reachable state |
| `Protocol.ProcessingHasItsRun` | internal/store/tx/claim_work.go:85-158 | a processing event has exactly one started run and it is its run_id, in any reachable state |
| `Protocol.TerminalIsForever` | internal/store/tx/finalize_run.go:98-144 | a processed, suppressed or failed event stays terminal whatever steps follow |
| `Timed.TimelyFinalizeOwnsItsEvent` | internal/store/tx/finalize_run.go:69-96 | a Finalize that commits before its deadline finds its run started, its event processing under that run, no outbox row and no recovery pending for it |
| `Timed.TimelyRunTidy` | internal/runtime/eventloop.go:143-157 | every timed run keeps the whole timing invariant: leases count from the run start, live executors own a started run, the recovery sweep holds only expired events, outbox and events mirror each other |
| `Timed.StartedIffProcessing` | internal/runtime/workers/processing_recovery.go:11-14 | in every timed run, a run is started exactly while its event is processing under it |
| `Timed.OneMirroredOutboxRowPerEvent` | internal/store/tx/finalize_run.go:98-144 | in every timed run each event has at most one outbox row, its outbox_id names exactly that row and its outbox_status equals the row's |
| `Timed.SettledRunsAreFinal` | internal/store/tx/finalize_run.go:69-96 | in every timed run a completed or failed run row is never written again, so no Finalize lands after recovery failed the run |
| `Timed.AbandonedEventIsFreed` | internal/store/tx/recover_processing.go:23-82 | in every timed run: a processing event is selected exactly once its run's start is at or before the cutoff, and taking it up fails that run and makes the event claimable again, so no event stays stuck |
| `Timed.FinalizeKeepsMirrorIffNoRowYet` | internal/store/tx/finalize_run.go:98-144 | without timing: a Finalize keeps outbox and events mirrored if and only if its event has no outbox row yet |
| `Timed.LateFinalizerDuplicatesOutbox` | internal/runtime/workers/processing_recovery.go:68-98 | a concrete run in which every step is timely but one Finalize behind its deadline, and one event ends with two outbox rows |
| `Projection.SessionsAgree` | internal/store/projections/sessions.go:44-107 | after every step of every run, late finalizers included, every session row equals the aggregate for its key: counted messages, a sum per token column over the completed runs, and the run that finished last |
| `Projection.FinalizeAddsItsRun` | internal/store/projections/sessions.go:54-84 | conservation, field by field: a Finalize adds exactly its visible messages, and its prompt, completion and total tokens to the three totals exactly when the run completed, also when recovery had failed the run before |
| `Projection.SumWithout` | internal/store/projections/sessions.go:63-72 | the sum of one token column does not depend on the order of the runs: taking any one run out takes that column of it out |
| `Projection.TotalsWithout` | internal/store/projections/sessions.go:63-72 | each of the three totals is over its own column: prompt, completion and total grow by the prompt, completion and total tokens of a run taken in |
| `Ingest.KeysAndEventsBijection` | internal/store/tx/ingest_event.go:17-119 | in every reachable state idempotency keys and events name each other one to one, with the session id of the key |
| `Ingest.KeysAreWriteOnce` | internal/store/tx/ingest_event.go:69-81 | over any steps, key rows are never rewritten and the active session id of a session key never changes |
| `Ingest.RetryIsIdempotent` | internal/store/tx/ingest_event.go:27-46 | after any later steps a retry writes nothing and gets the first result marked duplicate, or a conflict exactly when the hash differs |
| `Ingest.FreshRequestsCreateEvents` | internal/store/tx/ingest_event.go:58-119 | an event is created exactly for a new key with a free event id, and only a taken event id rolls a new key back |
| `Outbox.AttemptsStayBounded` | internal/outbound/delivery/worker.go:79-158 | in every run attempt_count is at most the limit plus one, with equality exactly for dead rows |
| `Outbox.SentAndDeadAreFinal` | internal/store/tx/outbox.go:69-176 | in every run a sent or dead row is never written again |
| `Outbox.FailedSendIsScheduled` | internal/outbound/delivery/worker.go:118-154 | a failed send counts once and buries the row exactly when the limit was reached, else schedules it after the policy's delay |
| `Outbox.NoRowStaysStuck` | internal/store/tx/outbox.go:13-67 | in every reachable state with no send under way, a recovery takes back exactly the rows sending for thirty seconds or longer and makes them due at once with their attempts kept; younger locks and other rows stay |
| `Outbox.LostSendIsTakenUpAgain` | internal/outbound/delivery/worker.go:79-107 | after a send whose outcome was lost or a crash, the row is due again exactly from thirty seconds after its lock on |
| `Retry.Next` | internal/outbound/retry/policy.go:34-64 | the doubling loop gives dead from the limit on, and the capped doubled delay before it |
| `Retry.Effective` | internal/outbound/retry/policy.go:26-44 | settings that are not positive are replaced by five seconds, five minutes and five attempts, positive ones are kept |
| `Retry.DelayIsCappedDoubling` | internal/outbound/retry/policy.go:45-60 | the delay is min(base * 2^n, max) if and only if base <= max or n > 0: a first delay is never capped |
| `Retry.DelayGrowsIffBaseWithinMax` | internal/outbound/retry/policy.go:45-60 | delays never shrink with more failures if and only if base <= max |
| `Services.EventQueue.TryEnqueue` | internal/runtime/eventloop.go:78-88 | enqueues exactly when there is room, without blocking |
| `Services.Accept` | internal/gateway/service.go:198-239 | only a newly created event is enqueued; a retry or conflict leaves store and queue unchanged; the new event is queued exactly when it fitted and the write of its status went through, else it stays received |
| `Services.Process` | internal/runtime/kernel/service.go:47-162 | claim, whatever everybody else does meanwhile, finalize: together a run of the protocol; when the finalize commits, run, event, outbox row and messages are what the execution's result calls for, otherwise nothing changes; completed is published last exactly if it committed and the execution did not fail, else failed |
| `Services.RecoveryTick` | internal/runtime/workers/processing_recovery.go:68-98 | one sweep of exactly the processing events whose lease of two minutes is over, oldest first; a failed sweep enqueues nothing, a complete one what fits, in order |
| `Services.RepumpTick` | internal/runtime/eventloop.go:106-141 | queues the oldest received or queued events by updated_at until the queue is full; an idle queue ends with all of them, or full of older ones |
| `Services.SendClaimed` | internal/outbound/delivery/worker.go:118-158 | one send, with a failed or lost write of its outcome, is one protocol step |
| `Services.ClaimNext` | internal/outbound/delivery/worker.go:79-107 | recovery of stale rows, then the claim, as protocol steps; nothing claimed means nothing is due and nothing is sending under an old lock |
| `Services.DeliveryTick` | internal/outbound/delivery/worker.go:79-144 | one tick for every combination of failing calls is a run of protocol steps and leaves the claimed row in the status the outcome calls for |
| `Lanes.Scheduler.Retain` | internal/runtime/lanes/scheduler.go:70-84 | one more reference on the lane of the key, which is created with its token when missing |
| `Lanes.Scheduler.TakeToken` | internal/runtime/lanes/scheduler.go:51-67 | takes the token exactly when there is one |
| `Lanes.Scheduler.PutToken` | internal/runtime/lanes/scheduler.go:23-32 | puts the token back, or would block exactly when the slot is full |
| `Lanes.Scheduler.Drop` | internal/runtime/lanes/scheduler.go:86-98 | one reference less, and the lane is deleted with its last one |
| `Lanes.RunValid` | internal/runtime/lanes/scheduler.go:51-98 | every interleaving of acquire, cancel, repeated release and drop keeps the counts, the token and the map in balance |
| `Lanes.OneLeasePerKey` | internal/runtime/lanes/scheduler.go:51-67 | mutual exclusion: at most one unreleased lease per key |
| `Lanes.CountsAreExact` | internal/runtime/lanes/scheduler.go:70-98 | refs is the number of clients between retain and drop, and the token is in the channel exactly when nobody holds it |
| `Lanes.ReleaseNeverBlocks` | internal/runtime/lanes/scheduler.go:23-32 | the token send never blocks and drop always finds the lane that was retained, so its mismatch branch is dead |
| `Lanes.WaiterGoesIffKeyFree` | internal/runtime/lanes/scheduler.go:55-66 | a waiter can go on exactly when no client holds its key |
| `Lanes.MappedIffReferenced` | internal/runtime/lanes/scheduler.go:70-98 | a lane is in the map exactly while refs > 0; an idle scheduler keeps no lanes |
| `Lanes.ResolveIsStable` | internal/runtime/lanes/key.go:17-28 | resolving a resolved key again gives the same lane, whatever session and event go with it |
| `Lanes.SameLaneIff` | internal/runtime/lanes/key.go:17-28 | without lane keys of their own two pieces of work share a lane if and only if they have the same session, or neither has one and they have the same event |
| `Queue.CompactInPlace` | internal/runtime/events/hub.go:266-277 | the in-place filter leaves, in order, exactly the items that must not be dropped |
| `Queue.Subscription.Enqueue` | internal/runtime/events/hub.go:260-285 | with room in an open queue the event is queued last, whatever its kind; a full queue refuses a droppable event and makes way for any other by dropping the droppable ones; a closed queue takes nothing; what is queued leaves a token |
| `Queue.Subscription.Append` | internal/runtime/events/hub.go:275-280 | append keeps all items and adds one, in place or in a fresh array |
| `Queue.Subscription.Close` | internal/runtime/events/hub.go:287-298 | closing keeps what is pending and leaves a token |
| `Queue.Subscription.Poll` | internal/runtime/events/hub.go:235-258 | the locked part of Next hands out the first item, else says closed or empty |
| `Queue.EnqueuedKeeps` | internal/runtime/events/hub.go:260-285 | an enqueue loses no item that must be kept, whatever it drops |
| `Queue.EnqueuedStaysBounded` | internal/runtime/events/hub.go:260-285 | the queue stays within its limit, or everything in it must be kept |
| `Hub.AppendPolicy` | internal/runtime/events/hub.go:192-208 | with room an item is appended; on a full history a droppable item is lost and any other pushes the oldest out |
| `Hub.FitInPlace` | internal/runtime/events/hub.go:192-208 | the filter loop over the array it reads gives exactly the kept items in order |
| `Hub.AppendHistory` | internal/runtime/events/hub.go:192-208 | the history after an append, for any limit |
| `HubDue.NothingDueIsLost` | internal/runtime/events/hub.go:86-166 | for every subscription and run, told from the calls and the replays alone: received then pending, restricted to events that must be kept, is in order exactly the tool and terminal events published for its ids from its Attach to its Release or its terminal event |
| `HubLive.NothingIsDroppedIfItKeepsUp` | internal/runtime/events/hub.go:116-166 | a subscriber that never has maxQueued items pending when something is published for it has received or has pending exactly every event published for it since its Attach, droppable ones included, in order |
| `HubLive.SlowSubscribersHoldOnlyWhatMustReach` | internal/runtime/events/hub.go:260-285 | in every run a subscriber has at most maxQueued items pending, or nothing but tool and terminal events |
| `HubDue.NothingIsLostIffTerminalsAreTerminal` | internal/runtime/events/hub.go:112-143 | the promise holds of all runs if and only if no event that is not terminal may be handed to PublishTerminal |
| `HubDue.ReplayWasPublished` | internal/runtime/events/hub.go:86-102 | Attach returns nothing but events that were published for its id before, unchanged but for a filled-in number |
| `HubLive.ReplayIsWhatWasPublished` | internal/runtime/events/hub.go:86-102 | before an end, Attach returns exactly what is left of all events published for the id: all of them while they are at most maxReplay, and beyond that a delta that comes late is left out and any other event pushes the oldest out |
| `HubLive.EventsAreNumberedFromTwo` | internal/runtime/events/hub.go:168-190 | events published without a number get 2, 3, 4 and so on for their id |
| `HubLive.EndIsForgotten` | internal/runtime/events/hub.go:224-233 | an ended topic is replayed as what is left of its events followed by its terminal event, and an Attach more than the retention after the end replays nothing |
| `HubDue.ReplayShowsTheEnd` | internal/runtime/events/hub.go:86-102 | a replay holds a terminal event if and only if the topic has ended |
| `Hub.QueuesStayBounded` | internal/runtime/events/hub.go:260-285 | in every run a queue is within its limit or holds only events that must be kept |
| `Hub.ReplayEndsWithItsTerminal` | internal/runtime/events/hub.go:192-222 | in every run a replay holds a terminal event at most as its last one, and history stays within its limit |
| `HubDue.TerminalIsRecordedOnce` | internal/runtime/events/hub.go:116-143 | over any steps in which the topic is not forgotten its terminal event never changes, every later terminal publish returns it and every later Attach replays it last |
| `HubDue.FirstEndStays` | internal/runtime/events/hub.go:116-143 | the first terminal event published for an id is the answer to every terminal publish and the end of every Attach for it, for the retention after it |
| `HubDue.ShownEndStays` | internal/runtime/events/hub.go:86-102 | a terminal event that an Attach has shown stays that answer for the retention after the Attach |
| `HubOrder.StreamsRise` | internal/runtime/events/hub.go:116-190 | in every orderly run each subscriber's replay followed by its live events, and each topic's replay, has strictly rising sequence numbers from 2 up |
| `HubOrder.LateEventBreaksOrder` | internal/runtime/events/hub.go:116-143 | an event published behind a terminal one breaks the order of the replay if and only if it is kept in the history |
| `HubOrder.LateEventIsReplayedFirst` | internal/runtime/events/hub.go:116-143 | from an empty hub, two publishes after which a replay has number 3 before number 2 |
| `StreamHub.HubService.Reserve` | internal/runtime/events/hub.go:61-66 | an unattached, open, empty subscription |
| `StreamHub.HubService.Prune` | internal/runtime/events/hub.go:224-233 | drops exactly the ended topics without subscribers whose last use is more than the retention ago, and leaves the others as they were |
| `StreamHub.HubService.Attach` | internal/runtime/events/hub.go:86-102 | prunes, subscribes, and returns history then terminal event |
| `StreamHub.HubService.Dispatch` | internal/runtime/events/hub.go:157-166 | every subscriber gets the event by its drop rule, and is closed by a terminal one |
| `StreamHub.HubService.PublishEvent` | internal/runtime/events/hub.go:116-143 | the whole state after a publish; a terminal event is recorded once and the recorded one returned |
| `StreamHub.HubService.Release` | internal/runtime/events/hub.go:68-84 | closes the subscription with its pending items kept, takes it off its topic, and leaves every other subscription alone |
| `StreamHub.HubService.AttachWithFallback` | internal/runtime/events/observe.go:53-63 | with a stored terminal event the replay ends with the topic's recorded terminal event and holds no other one |
| `StreamHub.ReplayContainsTerminal` | internal/runtime/events/observe.go:73-80 | finds a terminal event exactly when there is one |
| `StreamHub.WriteReplay` | internal/http/stream/handler.go:100-119 | accepted, then the replay up to its first terminal event or failed write |
| `StreamHub.HandleChatStream` | internal/http/stream/handler.go:100-145 | the frames are a prefix of accepted, replay and one frame per wait, an event or a keepalive; at most one terminal frame is written, as the last one; a stream that just stops has written all of them |
| `Wakeup.NoLostWakeupIffOneConsumer` | internal/runtime/events/hub.go:235-298 | for every queue limit: no wakeup is ever lost, in any interleaving of n consumers entering Next, enqueues, closes and timeouts, if and only if n <= 1 |
| `Wakeup.OneConsumerNeverSleepsOnWork` | internal/runtime/events/hub.go:235-298 | with one consumer, in every interleaving of enqueue, close and timed-out Next, a blocked consumer with something to find has a token waiting |
| `Wakeup.BlockedConsumerWithWorkRunsOn` | internal/runtime/events/hub.go:235-258 | such a consumer wakes and finds the first item or the close |
| `Wakeup.TwoConsumersCanSleepOnWork` | internal/runtime/events/hub.go:260-285 | for two or more consumers and any limit, a run from outside Next that ends with a consumer blocked next to an event and no token |
| `Limiter.RateLimiter.Allow` | internal/gateway/service.go:371-398 | answer and whole new state; on every 256th call exactly the other keys unused for more than 300 seconds lose their buckets, on any other call none does |
| `Limiter.CallTakesOneToken` | internal/gateway/service.go:383-397 | when buckets refill before they expire, a call is allowed exactly when its key's level is at least one, and takes one |
| `Limiter.RefillsAtRate` | internal/gateway/service.go:383-397 | from a call on a key's level grows by the rate up to the burst, from one less if the call was allowed, and a later call is allowed exactly when it has grown to one |
| `Limiter.OtherLevelsUntouched` | internal/gateway/service.go:374-382 | collecting, or a call for another key, leaves a key's level alone |
| `Limiter.SameLevelsSameAnswers` | internal/gateway/service.go:371-398 | from equal levels the collecting limiter and one that never collects give the same answers to every sequence of calls |
| `Limiter.WindowBound` | internal/gateway/service.go:371-398 | after any history, any window allows a key at most burst + rate * window calls, when collection is off or every bucket refills before it expires |
| `LimiterGc.CollectionUnobservableIff` | internal/gateway/service.go:374-382 | the collection is unobservable over all call sequences if and only if burst <= 300 * rate |
| `LimiterGc.SlowRefillIsObservable` | internal/gateway/service.go:374-382 | when buckets may expire before they refill, a sequence of calls that tells the two limiters apart |
| `LimiterGc.LevelsAreObservable` | internal/gateway/service.go:383-397 | from different levels of a key some calls get different answers |
| `LimiterBound.BoundHoldsIff` | internal/gateway/service.go:371-398 | the limiter keeps burst + rate * window for every history, window and key if and only if burst <= 300 * rate |
| `LimiterBound.SlowRefillExceedsBound` | internal/gateway/service.go:374-382 | otherwise a concrete sequence of calls is allowed more often than the bound |
| `Sse.ReadSSE` | web/src/lib/api-client.ts:303-352 | the chunked parser gives the same events as the character-wise one on the joined stream, so the chunking does not matter |
| `Sse.ReadChunk` | web/src/lib/api-client.ts:324-344 | one chunk: buffer, split, handle complete lines, keep the rest |
| `Sse.SplitIsCharWise` | web/src/lib/api-client.ts:324-344 | removing CR and splitting at LF is the character-wise parser |
| `Sse.WebReadsBack` | web/src/lib/api-client.ts:303-352 | any written events interleaved with keepalives, in any chunks, are read back exactly (sections 9.2.5 and 9.2.6 of the WHATWG HTML Living Standard for the fields used) |
| `Sse.LinesAreJoined` | web/src/lib/api-client.ts:303-344 | an event whose data stands in several lines is read by both clients as the text that splits into these lines |
| `Sse.ReadSSEEvent` | cmd/simiclaw/internal/client/client.go:568-600 | one call reads up to the next complete event, or end of file |
| `Sse.CliReadsBack` | cmd/simiclaw/internal/client/client.go:568-600 | the command-line reader reads back the same events |
| `Sse.EventIsRead` | internal/http/stream/handler.go:156-169 | a written event is read by one call, from wherever it starts |
| `Sse.CommentIsSkipped` | internal/http/stream/handler.go:171-177 | a keepalive yields nothing |
| `Chat.FramesReadBack` | internal/http/stream/handler.go:156-177 | both clients read from the written frames exactly the events of those that are not keepalives |
| `Chat.StreamChat` | internal/http/stream/handler.go:100-145 | end to end: both clients agree and read a prefix of accepted, replay, live events, with a terminal event at most last |
| `Prompt.TakeSnapshot` | internal/prompt/fingerprint.go:18-64 | exactly one fingerprint per context file, memory file and skill file of the variant |
| `Prompt.LoadCuratedMemoryBlocks` | internal/prompt/loader.go:53-71 | the readable memory files of the mode in order, each resolved path once |
| `Prompt.CuratedIsDeduplicated` | internal/prompt/loader.go:53-71 | no resolved path is injected twice and no readable one is missing |
| `Prompt.MemoryByMode` | internal/prompt/loader.go:53-71 | the memory blocks are the text of the public, the root and, exactly for private prompts, the private memory file, in this order and each resolved path once; text marked private shows in a private prompt only |
| `Prompt.ContextOfBundle` | internal/prompt/loader.go:18-51 | the context is the text of the six files that have any, in the fixed order, and of the heartbeat file exactly for a heartbeat prompt |
| `Prompt.LoadSkillSummaries` | internal/prompt/loader.go:107-139 | one summary per parsable skill file, by lower-cased name and then path |
| `Prompt.SkillListIsPerFile` | internal/prompt/loader.go:107-139 | one summary per readable skill file, none twice |
| `Prompt.SameReadsSameSkills` | internal/prompt/loader.go:107-139 | the skill list does not depend on the order of the walk |
| `Prompt.SnapshotDeterminesBuild` | internal/prompt/fingerprint.go:18-117 | two workspace states with equal snapshots for a variant build the same static prefix |
| `Prompt.SameBundleIffReadAlike` | internal/prompt/loader.go:18-139 | two states load the same bundle if and only if the same is read from every context file, the memory blocks are the same and every skill summary is |
| `Prompt.TextFingerprintIffSameRead` | internal/prompt/fingerprint.go:66-89 | for a file that holds text in either state the fingerprint is the same if and only if the same is read |
| `PromptCache.EqualStringMapIsEquality` | internal/prompt/cache.go:3-17 | the size-and-lookup comparison is map equality |
| `PromptCache.VariantKeyIsInjective` | internal/prompt/builder.go:39-44 | different variants never share a cache key |
| `PromptCache.StableStaticBuild` | internal/prompt/cache.go:19-29 | the retry loop against its recursive specification over the two callbacks |
| `PromptCache.BracketedBuild` | internal/prompt/cache.go:19-29 | the result is a build of some moment; a cacheable one lies between two snapshots equal to the returned one |
| `PromptCache.FirstStableAttemptWins` | internal/prompt/cache.go:19-29 | the first attempt with equal snapshots around its build is returned and may be cached; without one a last build is returned and may not |
| `PromptCache.StableBuildIsFaithful` | internal/prompt/cache.go:19-29 | when reads hold, the result was built at some moment of the build and a cacheable one is what any workspace with its fingerprints builds |
| `PromptCache.EntryIsFaithfulIffReadAlike` | internal/prompt/builder.go:116-144 | an entry is faithful for every renderer if and only if the state it was built from and the state it was snapped from are read alike: same context entries, memory blocks and skill summaries |
| `PromptCache.CachingIsFaithfulIffReadsHold` | internal/prompt/cache.go:19-29 | over a history of the workspace every cacheable build is faithful for every renderer if and only if, whenever the snapshots around a moment are equal, what is read at that moment is read under the second one |
| `PromptCache.NoReturnReadsHold` | internal/prompt/cache.go:19-29 | that holds when no fingerprint returns to an old value during a build |
| `PromptCache.Builder.LookUp` | internal/prompt/builder.go:116-126 | a hit exactly for an entry of the variant with an equal snapshot |
| `PromptCache.Builder.Settle` | internal/prompt/builder.go:125-144 | the locked double check: a fitting entry wins, else a cacheable build that still fits is stored; every entry stays faithful |
| `PromptCache.Builder.RenderStaticPrefix` | internal/prompt/builder.go:116-144 | whatever other calls make of the cache in between, the result equals a fresh build at some moment of the call, on a hit at the moment of its snapshot; the cache stays faithful |
| `PromptCache.ReturningContextFileBreaksIff` | internal/prompt/fingerprint.go:66-89 | a single context file that changes during a build and changes back makes the cache wrong if and only if it held text before or during the build and its fingerprint changed |
| `PromptCache.TornReadsAgree` | internal/prompt/fingerprint.go:18-64 | reading the files one after the other is no weaker: when the passes around a build agree and no single file returned, the build saw the same fingerprints |
| `Agent.ExecuteTool` | internal/runner/tool_executor.go:33-131 | a tool runs exactly when allowlist and budget let it; its one tool message holds the tool's result when it ran and the denial otherwise; only real invocations are counted |
| `Agent.ExecuteRound` | internal/runner/agent_executor.go:123-147 | one assistant message followed by exactly one tool message per call, in order, each holding the result of its action exactly when that call ran; action i has index i |
| `Agent.Execute` | internal/runner/agent_executor.go:46-160 | for arbitrary replies: at most maxToolRounds+1 provider calls, each usage number is the sum of it over them, the messages are a transcript, and the message of action i holds tool(i) exactly when that call ran by the policy |
| `Agent.CronRunsEachAllowedToolOnce` | internal/runner/policy.go:42-69 | for cron_fire every tool that runs is one of the three allowed ones and runs at most once in the whole run |
| `Agent.RanIff` | internal/runner/policy.go:42-69 | a call of a run really runs if and only if it is no repeat of a cron tool that ran, asks for no injected file and is one of the three tools, each condition for the payload types it is meant for; so the first call of a cron tool runs |
| `Agent.RestrictedIffExactType` | internal/runner/policy.go:42-69 | what may run is limited to the three cron tools if and only if the payload type is exactly cron_fire, while other spellings are budgeted too |
| `History.HistoryToChatMessages` | internal/runner/history_transform.go:10-48 | the loop against its specification on the whole history |
| `History.RepairedIsSubsequence` | internal/runner/history_transform.go:10-48 | the output is the history with some messages left out, in order |
| `History.ToolMessagesAnswerOpenCalls` | internal/runner/history_transform.go:28-45 | every tool message of the output answers an earlier call that nothing in between has answered |
| `History.RepairDecides` | internal/runner/history_transform.go:10-48 | message by message: it is sent, with its role, content, calls and call id, unless its run is skipped, it is an assistant message that says and calls nothing, or a tool message that answers no call still open |
| `History.RepairIsIdempotent` | internal/runner/history_transform.go:10-48 | repairing twice changes nothing |
| `History.ConversationIsKept` | internal/runner/history_transform.go:10-48 | complete turns pass untouched, whatever calls are still open |
| `History.TranscriptIsConversation` | internal/runner/agent_executor.go:46-160 | every transcript the agent produces is complete turns, when its calls have non-blank ids that differ within a round |
| `History.AgentRunSurvives` | internal/runner/history_transform.go:10-48 | every run of the agent, with any model replies whose call ids are not blank and differ within a round, passes the repair untouched and message by message |
| `History.WindowLosesOnlyOrphans` | internal/store/queries/history.go:50-90 | on any tail window of complete turns the repair drops exactly the tool messages whose call was cut off; on the whole it is the identity |
| `History.LoadPromptHistory` | internal/store/queries/history.go:50-90 | reading newest first, skipping, stopping at the limit (20 when none is given) and reversing gives the last relevant messages, oldest first |
| `History.SessionIsConversation` | internal/store/queries/history.go:50-90 | the relevant messages of a session made of whole agent runs, with skipped runs in between, are complete turns |
| `History.PromptSeesTail` | internal/store/queries/history.go:50-90 | loading then repairing such a session: the model is sent every message of the window but the answers whose call lies before it, and all of them when the window is large enough |
| `Pages.SelectRows` | internal/store/queries/events.go:47-81 | the query with its keyset predicate returns the first rows of the filtered and ordered list behind the cursor |
| `Pages.ListingIsNewestFirst` | internal/store/queries/events.go:47-81 | the whole list has every row asked for, once, by time and then id, newest first |
| `Pages.PageBehind` | internal/query/events.go:17-39 | the page behind the first i rows is the next rows in order, with an anchor exactly when more follow |
| `Pages.WalkPages` | internal/query/events.go:17-39 | following Next until it is nil ends, and the pages joined have every row asked for, once and newest first, at most the limit on each page (50 when none is given) |
| `Pages.AnchorLeadsOnIffUsable` | internal/store/queries/events.go:62-68 | following an anchor goes on with the next rows if and only if it has a time and an id that is not blank |
| `Pages.UnusableAnchorStartsOver` | internal/store/queries/sessions.go:31-65 | any other anchor is ignored and starts over from the first page |
| `Basics.ReverseInPlace` | internal/store/queries/record_codec.go:57-67 | the in-place swap loop of both record lists leaves them reversed |
| `Pages.WalkHistory` | internal/query/sessions.go:13-20 | pages put in front of each other give the full history, every message once and oldest first |
| `Baseline.MatchBaseline` | devtools/guardrails/matching.go:104-122 | the first free entry of the same rule, file, kind and place, else the first free one of the same rule, file, kind, symbol and fingerprint, else none |
| `Baseline.ApplyBaseline` | devtools/guardrails/matching.go:63-78 | the front-to-back greedy pass: its pairing, the used flags it leaves, and each finding existing exactly if it was paired, with its own message or else the entry's |
| `Baseline.PassIsAMatching` | devtools/guardrails/matching.go:63-78 | every existing finding has an entry of its own that it matches |
| `Baseline.PassUsesAsMany` | devtools/guardrails/matching.go:63-78 | as many entries are used as findings become existing |
| `Baseline.CoveredFindingsExist` | devtools/guardrails/matching.go:63-122 | when the baseline has the keys of the findings and perhaps more, in any order, all findings become existing and the unused entries have exactly the keys left over |
| `Pairing.GreedyIsOptimalIffNoTheft` | devtools/guardrails/matching.go:63-122 | greedy pairs as many findings as any pairing could, for every choice and order of the findings and entries, if and only if no finding can steal: where g matches k and l and f only k, l is exact for g and k is not |
| `Pairing.NoTheftIsOptimal` | devtools/guardrails/matching.go:63-122 | without theft no matching of these findings with these entries is larger than the greedy one |
| `Pairing.TheftMissesAPairing` | devtools/guardrails/matching.go:104-122 | with any theft, two findings and two entries on which greedy is not optimal |
| `Guardrails.ShrinkCandidates` | devtools/guardrails/matching.go:80-102 | the unused entries in order, as shrink candidates |
| `Guardrails.CandidateAt` | devtools/guardrails/matching.go:80-102 | the candidate for an unused entry stands behind those for the unused entries before it, and is that entry |
| `Guardrails.ReportSplitsTheBaseline` | devtools/guardrails/checker.go:74-86 | existing findings and shrink candidates of a whole-repository report add up to the baseline |
| `Guardrails.Check` | devtools/guardrails/checker.go:74-86 | match, add shrink candidates in repository scope only, and sort: the report holds exactly these findings, by status, file, line, rule and fingerprint |
| `Guardrails.FindingBeforeIsWeak` | devtools/guardrails/matching.go:182-198 | the report order is a strict weak order, as sort.Slice demands |
| `Guardrails.EntryBeforeIsWeak` | devtools/guardrails/io.go:52-62 | the baseline order is a strict weak order, as sort.Slice demands |
| `Guardrails.BuildBaseline` | devtools/guardrails/io.go:31-64 | one entry per finding that is not a shrink candidate, by file, rule, line and fingerprint |
| `Guardrails.RebuiltBaselineCovers` | devtools/guardrails/io.go:31-64 | a baseline rebuilt from any report has exactly the keys of the scanned findings, whatever the baseline before |
| `Guardrails.CheckAfterSync` | devtools/guardrails/checker.go:27-88 | check, sync, check again: later findings with no new key, in any order, are all existing and the ones that are gone are the shrink candidates; with the same findings there are none |
| `Guardrails.CountFindings` | devtools/guardrails/matching.go:144-172 | the pass over the findings counts every status, severity and rule exactly |
| `Guardrails.BuildSummary` | devtools/guardrails/matching.go:144-180 | counts by status and severity; per-rule counts exact, complete and sorted; they add up to errors + warnings = total - shrink candidates |
| `Sorting.SortOrders` | devtools/guardrails/matching.go:182-198 | sorting by an order with ties gives the same elements, none before a smaller one |
| `Sorting.TextBeforeIff` | devtools/guardrails/matching.go:182-198 | texts compare by their first difference, and a proper prefix comes first |

## Left out

- Limiter.WindowBound: takes burst >= 1, a clock that does not go back and real numbers; the code uses floating point, and a smaller burst still allows the first call of a new key.
- Retry.Next: does not model the overflow of doubling a 64-bit duration, which needs a maximum delay above 2^62 nanoseconds (146 years).
- Services.Accept: covers the persist and enqueue part; validation, payload hashing, rate-limit keys, the recording of the message scope and the API response are not modelled.
- HubDue.NothingDueIsLost: takes PublishTerminal to be given terminal events, as its only caller does; `HubDue.NothingIsLostIffTerminalsAreTerminal` shows that this is exactly what is needed.
- HubLive.NothingIsDroppedIfItKeepsUp: takes PublishTerminal to be given terminal events, like NothingDueIsLost.
- HubLive.ReplayIsWhatWasPublished: is about an id for which no terminal event was published yet; `HubLive.EndIsForgotten` covers the replay of an ended topic, `HubOrder.LateEventBreaksOrder` events behind the end.
- Agent.ExecuteTool: a tool's result is a text taken as a parameter and all denials are one text; how results and errors are encoded is not modelled.
- HubDue.TerminalIsRecordedOnce: takes a retention that is not negative; the hub's is ten minutes.
- Services.Process: the executor's own work is a result passed in; sinks, logging and trace assembly are not modelled.
- StreamHub.HubService.Attach: keeps subscriptions as values under their id; the array behind a queue and its in-place filter are proved separately in `Queue.Subscription`, without aliasing between hub and consumer.
- HubOrder.StreamsRise: is about runs in which the hub numbers the events, a subscription attaches once and nothing follows a terminal event; for the last part `HubOrder.LateEventBreaksOrder` gives the exact condition.
- StreamHub.HandleChatStream: a write either happens or fails as a whole; a partly written frame is not modelled.
- PromptCache.Builder.RenderStaticPrefix: what other calls do while this one is building is one faithful cache taken as a parameter, since every critical section keeps the cache faithful; the number of static builds they add is not modelled.
- Pages.WalkPages: walks a table that does not change; for messages, no row is stamped later than tomorrow.
- Guardrails.Check: sort.Slice may order findings with equal sort keys in any way; the model fixes one of them, and no result depends on it.
- Guardrails.BuildBaseline: explanation and remediation texts are copied and not modelled.
- Repository.RuntimeRepository.Finalize: the fields of a run that are only copied (provider, latency, reply text, diagnostics, errors) are not modelled.
- Repository.RuntimeRepository.PersistEvent: the recording of a conversation's message scope and the display columns of a session row are not modelled.
- SQL text, SQLite locking, migrations, heartbeats and JSON encoding: each transaction is one atomic step.
- Path resolution and symbolic links: a file is missing, denied, unreadable, empty, or a resolved path with content.
- Bytes and text decoding of streams: both readers work on characters.
- The consume loop, tickers and goroutines: their steps may come in any order.
- Provider, Telegram, HTTP and CLI plumbing, the web interface, configuration, memory search scoring, scanning of Go sources for findings and the allowlist: input and output, or easy members.
