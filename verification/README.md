# Verified model of the live-actions webhook pipeline

live-actions receives GitHub Actions webhooks, folds them into two tables (`workflow_jobs`,
`workflow_runs`) and pushes updates to browsers over server-sent events. This project models
its stateful core in Dafny 4.11 and proves what that core keeps over every run.
`dafny verify dfyconfig.toml` checks all of it.

How it is laid out:

- `Status`, `Lifecycle`: the status priorities and the upsert rule of both typed tables; what
  any sequence of upserts, stale sweeps and retention deletes leaves behind.
- `Records`, `EventTable`, `Database`: decoded webhooks and their ordering metadata, the
  `webhook_events` spill table, and `DBWrapper`, whose methods are the SQL statements. Any call
  may fail, and a failing COMMIT may have taken effect.
- `Pipeline`: the ingest pipeline as a state machine. Its steps are the points at which HTTP
  senders, the ingest worker, the flush worker, `Stop`, and the cleanup service touch shared
  state, so a run is any interleaving of them. `PipelineInvariants` and `PipelineCoverage` prove
  one invariant per concern, `PipelineTheorems` the results over all runs.
- `WebhookHandler`, `OrderingService`, `Ingest`: the loops and early returns of the source as
  classes and methods. `EventOrderingService` carries a run of the machine with it, and each of
  its methods extends that run, so every result about runs holds of it.
- `JobHandler`: the `workflow_job` handler and its metrics, alone and with calls interleaved.
- `CoalMachine`, `Fanout`: the SSE coalescer and fanout as state machines; `Coalescer`: `SSEHandler`,
  which carries the state of the coalescing machine that its calls have reached.
- `RunHandler`, `RunFeed`: the `workflow_run` handler, alone and as interleaved calls that feed
  the coalescer.
- `Migrations`, `History`: the migration runner and the metrics downsampler.

Choices a reader should know:

- Time is an integer. Tickers, deadlines and which ready `select` branch runs are
  nondeterministic choices; so are faults.
- A webhook body starts decoded; the action is the status of the write it carries.
- The pipeline may start over a database an earlier process left: rows pending there count as
  accepted events (a backlog), and stored statuses as a starting point.
- A transaction or single statement is one atomic step: the source has one write connection.
- The flush worker's mutex guards nothing else, so it is not modelled.
- `SSEHandler` holds the coalescer's pending map as a field of its own; the coalescer's ticker
  and stop signal are steps of `CoalMachine`.
- `ORDER BY ... LIMIT` is a relation (`IsPage`): rows that tie may come in any order.

Where the code and its comments differ, the model follows the code:

- Replaying a terminal status is described as accepted (models/status_priority.go:50-53); the
  upsert answers "not updated" and leaves the row alone (internal/database/workflow.go:86-89).
- An unknown action is described as a permanent error (handlers/workflow_job_handler.go:47-50);
  the handler returns no error, so the event counts as handled.
- `AddEvent` is described as failing during shutdown (internal/services/event_ordering_service.go:127-128);
  a send that finds room succeeds even then, and an event sent after the drain's last empty poll
  stays in the channel for good. `ShutdownDrains` says exactly which events those are.
- History responses are described as capped at 288 points (internal/database/metrics.go:20-26);
  the cap holds exactly for windows shorter than 288 seconds, and the bound over all windows is 576.

Results that hold only under a condition, with the condition proved exact:

- Order independence of the upsert holds if and only if no ID has two terminal statuses
  (`OrderIndependentIff`).
- A fault-free migration run from a fresh database applies every file if and only if the
  versions are distinct and positive (`CleanRunCompletesIff`).
- The conclusion counter lags the table by exactly the completions whose commit reported an
  error after taking effect (`CounterAgreesWithTable`); one such commit is enough
  (`CommitErrorLosesCount`).
- Two calls for a queued job that both begin before either writes record its queue duration twice
  if and only if both read `queued`, both writes carry a start time, the first moves the job on
  without ending it, and the second does not move it back (`OverlapRecordsTwiceIff`). Without
  overlap it is recorded at most once (`QueueTimeAtMostOnce`).
- A window's history never exceeds 288 points if and only if the window is shorter than 288
  seconds (`CapHoldsIff`); every window of W seconds can reach ceil(W / b) + 1 points
  (`BucketBoundAttained`).

Results whose condition is one-way, with a run that fails without it:

- The channel is empty after Stop unless something was sent after the drain's last poll
  (`ShutdownDrains`); such a send is stranded even when nothing fails (`LateSendIsStranded`).
- The last `workflow_update` emitted reports the last run write accepted if no write was accepted
  while another call was still to submit (`LastUpdateWins`); otherwise it can report an older
  one (`OverlapReportsOlder`).

## Model

| member | source | states |
|---|---|---|
| Status.TerminalIsTopLayer | models/status_priority.go:19-70 | the terminal predicates and the priority tables, written separately, agree: terminal means top priority, for jobs and runs |
| Status.RanksFollowLine | models/status_priority.go:19-49 | the priorities number waiting, queued, requested, in_progress for jobs and requested, in_progress for runs from 1; the ending statuses share the next number; every other status is unknown |
| Status.TakesOverFollowsLine | internal/database/workflow.go:81-100 | by name, a status gives way to itself, a later or an ending one, never to an earlier one, and an ending one to none |
| Lifecycle.UpsertByName | internal/database/workflow.go:60-118 | the upsert stores a new row of a lifecycle status, moves a row along the lifecycle or to an ending status, and leaves it alone otherwise |
| Lifecycle.ClosedForm | internal/database/workflow.go:81-118 | after any writes to an empty table the row of an ID is its first terminal write's, else its last maximal-priority write's; it is absent exactly when no status was known |
| Lifecycle.FoldIsHighest | internal/database/workflow.go:59-199 | from any table of known statuses, the final status is a highest-priority one among those stored and written, whatever the order |
| Lifecycle.OrderIndependentIff | internal/database/workflow.go:40-59 | reordering and duplicating writes never changes a status if and only if each ID has at most one terminal status |
| Lifecycle.SortedReplayIsLossless | internal/database/workflow.go:81-100 | writes of an ID arriving in priority order are rejected only for an unknown status or an earlier terminal one |
| Lifecycle.RowLifecycle | internal/database/workflow.go:81-118 | over any interleaving of upserts, sweeps and deletes, between insertion and deletion a row's priority never falls and a terminal row is frozen in every column |
| Lifecycle.NoUnknownStatusStored | internal/database/workflow.go:60-65 | no statement of any writer ever stores an unknown status |
| Lifecycle.SweepAccounting | internal/database/workflow.go:421-436 | a sweep lowers running plus queued by exactly the rows it reports |
| Lifecycle.SweepIsIdempotent | internal/database/workflow.go:421-425 | exactly the queued and in_progress rows created before the cutoff become stale, no other row is touched or removed, a second sweep changes nothing |
| Database.DBWrapper.AddOrUpdateJob | internal/database/workflow.go:59-130 | the transaction's branches and faults: on success it reports "updated", and stores the row, exactly when the incoming status is at or after the stored one or ends it; on error the old or the new table |
| Database.DBWrapper.AddOrUpdateRun | internal/database/workflow.go:135-199 | the same for runs, along requested, in_progress, then completed or cancelled |
| Database.DBWrapper.CleanupOldData | internal/database/workflow.go:358-413 | one transaction keeps, unchanged, exactly the jobs and runs created at the cutoff or later and the events not processed before it, and counts what it deleted; or does nothing, or reports an error after taking effect |
| Database.DBWrapper.CleanupStaleJobs | internal/database/workflow.go:418-436 | every queued or in_progress job created before the cutoff becomes stale and completed now, every other row is unchanged; the reported count is their number and the fall in running plus queued |
| Database.DBWrapper.GetCurrentJobCounts | internal/database/workflow.go:438-450 | counts in_progress and queued rows, each row at most once |
| Database.DBWrapper.StoreWebhookEvents | internal/database/event.go:74-143 | a batch upsert is all or nothing, and fails untouched through a cancelled context |
| Database.DBWrapper.SelectPage | internal/database/event.go:145-152 | the oldest eligible rows, ascending by timestamp, then key in text order, then priority, all of them when short |
| Database.DBWrapper.GetPendingEventsGrouped | internal/database/event.go:145-200 | a page of pending rows, oldest first, all of them when short; fails on a NULL payload, which cannot happen while rows are in order |
| Database.DBWrapper.GetPendingEventsByAge | internal/database/event.go:202-259 | the same of the pending rows received at least maxAge ago, never through a cancelled context |
| Database.DBWrapper.MarkEventProcessed | internal/database/event.go:261-270 | sets status and time and clears the payload of one row and leaves the others alone, or fails |
| Database.DBWrapper.MarkEventFailed | internal/database/event.go:272-280 | sets the status of one row and leaves the others alone, or fails |
| EventTable.StoreAllRows | internal/database/event.go:103-137 | after a batch upsert each delivery has the row of its last occurrence in the batch; other rows are untouched |
| EventTable.SpillRoundTrip | internal/database/event.go:103-193 | the last spilled event of a delivery has a row with its columns and is fetched back as it was stored, marked persisted |
| EventTable.RetentionSparesUnprocessed | internal/database/workflow.go:392-392 | the retention delete removes exactly the rows processed before the cutoff, so keeps every pending and failed event |
| EventTable.PageLength | internal/database/event.go:145-152 | a page holds min(limit, eligible rows) rows |
| EventTable.PageIsAscending | internal/database/event.go:151-152 | on the columns themselves a page ascends, and no eligible row left out comes before a row on it |
| Records.SortIsTotalPreorder | internal/database/event.go:151-152 | the three-column replay order is total and transitive |
| Records.SortsBeforeIsAscending | internal/database/event.go:151-152 | the replay order is ascending timestamp, then key by the first character that differs, then ascending priority |
| Records.OrderingKeyIdentifies | handlers/workflow_job_handler.go:157-164 | ordering keys of two objects are equal only if they are the same job or run |
| PipelineTheorems.Conservation | internal/services/event_ordering_service.go:129-259 | in every reachable state each accepted occurrence is in exactly one place; the channel is within capacity, the spill buffer below the batch size between iterations |
| PipelineTheorems.PermanentMeansUnregistered | handlers/webhook_handler.go:289-294 | only events of unregistered types are ever dropped as permanent, so none that passed Ingest's gate |
| PipelineTheorems.EventTableInvariant | internal/database/event.go:85-97 | over all runs a row is processed exactly when processed_at is set, pending rows have payloads, every row has a registered type, and retention spares unprocessed rows |
| PipelineTheorems.NoSilentLoss | internal/services/event_ordering_service.go:174-379 | an accepted event is always in memory, dropped for its type, counted lost by a failed spill, applied, or has a pending or failed row |
| PipelineTheorems.PipelineRefinesUpserts | internal/services/event_ordering_service.go:174-379 | at quiescence, with sweeps and retention interleaved, every undeleted run and unswept job stands at a highest-priority status among its accepted events and its starting status, and a swept job at stale |
| PipelineTheorems.RunsConverge | internal/services/event_ordering_service.go:174-379 | two quiescent runs, from any starting tables, that know the same statuses of an undeleted job or run, at most one terminal, agree on it, whatever their schedules and retries |
| PipelineTheorems.StoredRowWasAccepted | internal/database/workflow.go:59-199 | in every reachable state an unswept, undeleted row is in every column its starting row or the payload of an accepted event; of the deciding write when there was no starting row |
| PipelineTheorems.ShutdownDrains | internal/services/event_ordering_service.go:115-122 | when Stop returns the channel holds exactly what was sent after the last empty poll; absent final-flush faults nothing is pending, and absent lost spills every earlier event is applied, dropped for its type, or failed |
| PipelineTheorems.LateSendIsStranded | internal/services/event_ordering_service.go:129-135 | from any start with nothing pending, a fault-free shutdown exists in which an event accepted after the last poll stays in the channel |
| PipelineInvariants.ColdStep | internal/services/event_ordering_service.go:361-379 | each event of the page being replayed keeps a pending row of its own while spills overwrite rows |
| PipelineCoverage.DrainStep | internal/services/event_ordering_service.go:266-274 | the final flush's last page covers all pending rows left, because it waits for the ingest worker |
| PipelineCoverage.CoverInvStep | handlers/webhook_handler.go:298-312 | a spilled event stays applied or replayable through marks, failed marks, re-spills and retention |
| WebhookHandler.Processor.ProcessOrderedEvent | handlers/webhook_handler.go:284-313 | apply then mark: permanent exactly for unregistered types, which are never marked; a failing handler's row is marked failed |
| OrderingService.EventOrderingService.AddEvent | internal/services/event_ordering_service.go:129-163 | a send succeeds at once exactly when there is room, cancelled or not; "cancelled" is reported only during shutdown |
| OrderingService.EventOrderingService.AwaitRoom | internal/services/event_ordering_service.go:137-162 | a blocked sender woken in any state: it is queued if room appeared and that branch is taken, told "cancelled" only during shutdown, "full" only with a timer |
| OrderingService.EventOrderingService.FlushSpill | internal/services/event_ordering_service.go:182-206 | the buffer is emptied either way; through a cancelled context nothing is stored |
| OrderingService.EventOrderingService.Process | internal/services/event_ordering_service.go:208-229 | one hot-path step; only a registered event can be appended to the spill buffer |
| OrderingService.EventOrderingService.ReceiveOne | internal/services/event_ordering_service.go:250-254 | takes the head of the channel, handles it and spills if due |
| OrderingService.EventOrderingService.DrainIngest | internal/services/event_ordering_service.go:233-249 | the drain leaves channel and spill buffer empty and has polled after everything accepted |
| OrderingService.EventOrderingService.IngestTurn | internal/services/event_ordering_service.go:231-258 | between turns the spill buffer is below the batch size; the worker returns only once drained |
| OrderingService.EventOrderingService.ProcessEvents | internal/services/event_ordering_service.go:361-379 | exactly the page's events are handled, in order, and the typed tables take exactly their writes that landed; if every mark succeeds exactly the page's rows stop being pending |
| OrderingService.EventOrderingService.FlushReadyEvents | internal/services/event_ordering_service.go:291-329 | handles at most 20 pages of events, none before maxAge has passed since its receipt, and none once cancelled; the typed tables take exactly their writes |
| OrderingService.EventOrderingService.FlushAll | internal/services/event_ordering_service.go:331-359 | the typed tables take exactly the writes of what it replayed, in that order; with successful marks that ascends by timestamp, key and priority, the upsert turns none of it down for its priority, and unless cut short it is the whole pending set, once each; only a deadline shorter than that takes can cut it short |
| OrderingService.EventOrderingService.Stop | internal/services/event_ordering_service.go:119-122 | cancel, drain, final flush: memory is empty and, without faults, nothing is pending |
| OrderingService.EventOrderingService.PerformCleanup | internal/services/cleanup_service.go:72-113 | the sweep and then the delete, each a step of the machine: the delete runs even if the sweep failed, after a sweep no stuck job is left, after a delete no row older than the retention |
| OrderingService.DrainsCompose | internal/services/event_ordering_service.go:339-358 | the concatenation of successive sorted pages is sorted and has no repeats |
| OrderingService.RoundShrinksPending | internal/services/event_ordering_service.go:339-358 | a round whose marks succeed lowers the number of pending rows by its page length |
| OrderingService.SortedDrainIsLossless | internal/database/event.go:145-152 | replaying events in sorted order, the upsert rejects a write for a new ID only for an unknown status or an earlier terminal write of that ID; FlushAll applies it to what it replayed |
| OrderingService.ReplayedEventsWellFormed | handlers/webhook_handler.go:209-220 | rows replay with the ordering metadata their bodies imply |
| Ingest.IngestDelivery | handlers/webhook_handler.go:137-245 | 202 exactly for a decodable, registered, identified delivery that found room, which puts one event with its ID, body and time of receipt, and its body's timestamp, key and priority, at the end of the channel; any other answer leaves the pipeline as it was |
| JobHandler.WorkflowJobHandler.HandleEvent | handlers/workflow_job_handler.go:35-109 | rejected, unknown and failed writes leave the metrics alone; an accepted one records the transition from the status read, column by column |
| JobHandler.WorkflowJobHandler.HandleJobStatusTransition | handlers/workflow_job_handler.go:112-146 | leaving queued with a start time records one duration, from creation to start, under the first label; newly completing with a conclusion counts it once; nothing else changes |
| JobHandler.UndisturbedCall | handlers/workflow_job_handler.go:59-109 | a call run alone through the interleaving model does what HandleEvent promises |
| JobHandler.CounterAgreesWithTable | handlers/workflow_job_handler.go:142-145 | with no deletes and no call in progress, counter plus completions lost to durable commit errors equals completed rows with that conclusion gained since the start |
| JobHandler.QueueTimeAtMostOnce | handlers/workflow_job_handler.go:133-140 | without overlapping calls for a job its queue duration is recorded at most once, failed reads included |
| JobHandler.DurationsAreReal | handlers/workflow_job_handler.go:133-140 | over any interleaving every recorded duration is that of an accepted write whose call read queued, and there are as many as observations |
| JobHandler.OverlapRecordsTwiceIff | handlers/workflow_job_handler.go:59-140 | over any two overlapping calls for a queued job, finishing in any order, the exact condition on reads and writes under which its queue duration is recorded twice |
| JobHandler.OverlapRecordsTwice | handlers/workflow_job_handler.go:59-105 | for every pair of writes that meets it there is a run that records twice |
| JobHandler.CommitErrorLosesCount | handlers/workflow_job_handler.go:73-80 | from any start, one durable commit error leaves a completion uncounted with no call in progress |
| RunHandler.WorkflowRunHandler.HandleEvent | handlers/workflow_run_handler.go:27-93 | an accepted write becomes the pending workflow_update, one submission of the coalescing machine; a rejected, unknown or failed one never touches it |
| RunFeed.UpdatesStemFromWrites | handlers/workflow_run_handler.go:62-89 | over any interleaving of calls, deletes and flushes every workflow_update emitted reports a run write that the table accepted and stored, and each accepted write is submitted exactly once, unless its call is still to |
| RunFeed.LastUpdateWins | handlers/sse_handler.go:74-110 | at rest the last workflow_update emitted is the last submitted, and without overlapping calls the last accepted |
| RunFeed.OverlapReportsOlder | handlers/workflow_run_handler.go:62-89 | with overlap, any first of two accepted writes of a new run can be the one reported last |
| CoalMachine.LatestIsLast | handlers/sse_handler.go:89-93 | the pending map holds exactly the last event of each type submitted |
| Coalescer.SSEHandler.SendEventNow | handlers/sse_handler.go:159-186 | every subscriber of the snapshot is offered the event; the drop count grows by the number of full ones |
| Coalescer.SSEHandler.Flush | handlers/sse_handler.go:95-110 | one flush of the coalescing machine: empties the map and broadcasts each of its events once |
| Coalescer.SSEHandler.Stop | handlers/sse_handler.go:74-117 | the final flush: the coalescer is done, has taken every submission and has broadcast each pending event once |
| CoalMachine.Coalescing | handlers/sse_handler.go:74-110 | flush windows partition the submissions; between flushes exactly their orders have been emitted |
| CoalMachine.FlushMeaning | handlers/sse_handler.go:95-110 | a flush emits, for each type in its window, the last event and no other |
| CoalMachine.Freshness | handlers/sse_handler.go:89-110 | in every state, of each submission a swap has taken, it or a later one of its type has been emitted or is in the batch in progress; emitted, if its window is not the one in progress |
| CoalMachine.StopEmitsEverything | handlers/sse_handler.go:112-117 | after stop the last event of each type before the final swap has been emitted |
| Fanout.SubscriberStream | handlers/sse_handler.go:159-211 | in every state received then queued is a subsequence of the broadcasts whose snapshot held the subscriber; the queue is at most 100; received, queued and dropped add up to them, less the one in progress that has not reached it |
| Fanout.SentIsBroadcasts | handlers/sse_handler.go:159-186 | every subscriber is in the snapshot of every broadcast that starts while it is subscribed, and no other client is |
| Fanout.NoLossWhileRoom | handlers/sse_handler.go:172-186 | only a full queue loses events: with room at every offer a subscriber has received or queued every broadcast that reached it, in order |
| Fanout.FirstBroadcastArrives | handlers/sse_handler.go:159-211 | a subscriber that is offered the first broadcast and reads has received it, and the broadcast ends |
| Fanout.SlowSubscriberIsIsolated | handlers/sse_handler.go:37-42 | a subscriber that never reads changes no other subscriber's stream |
| Migrations.SchemaDb.RunMigrations | internal/database/db.go:115-199 | a run changes nothing or is the apply loop stopped at some failing file; success means no file failed |
| Migrations.DiscoversUpFiles | internal/database/db.go:143-154 | what is discovered is the version and name of each plain file ending in .up.sql with a version, and nothing else |
| Migrations.CurrentIsHighest | internal/database/db.go:127-131 | the current version is the highest recorded, or 0 |
| Migrations.SortSorts | internal/database/db.go:155-155 | the sort is an ordered permutation of the discovered files |
| Migrations.ResumableMigrations | internal/database/db.go:127-190 | after any failing runs the effects are a prefix of the sorted list, once each and in order; a clean run completes it and further runs change nothing |
| Migrations.CleanRunCompletesIff | internal/database/db.go:158-190 | a clean run from a fresh database applies every file exactly when versions are distinct and positive |
| History.GetMetricsHistory | internal/database/metrics.go:31-64 | rows strictly increase, each averages to the nearest the snapshots of its bucket, and every snapshot of the window falls into one |
| History.BucketIsExact | internal/database/metrics.go:41-46 | a bucket holds exactly the snapshots of the window in its seconds, each as often as it was taken |
| History.BucketCountBound | internal/database/metrics.go:39-47 | a window of W seconds has at most ceil(W / b) + 1 buckets |
| History.BucketBoundAttained | internal/database/metrics.go:39-47 | every window and bucket size has snapshots that fill ceil(W / b) + 1 buckets |
| History.CapHoldsIff | internal/database/metrics.go:20-37 | no response for a window exceeds the documented 288 points if and only if the window is shorter than 288 seconds |
| History.HistorySize | internal/database/metrics.go:26-37 | never more than 576 points: 301 for an hour, 289 for a day, a week and a month |
| History.HistorySizeReached | internal/database/metrics.go:26-37 | the overall bound of 576 points is reached |
| History.PointWithinBucket | internal/database/metrics.go:42-43 | a rounded average lies within the counts it averages, running or queued |

## Left out

- Assumption on delivery IDs: `NoSilentLoss` and what builds on it assume that events with the same delivery ID carry the same body; the spill table keeps one row per ID, so a second body would replace the first.
- PipelineRefinesUpserts: leaves out IDs whose row the retention delete has removed; a write after the delete starts such a row afresh, which is the subject of RowLifecycle.
- CleanupOldData: the delete from `metrics_snapshots` in the same transaction compares text of two formats and touches no modelled table.
- DrainIngest: as a method it runs alone; sends that arrive during the drain are steps of `Pipeline`, so `ShutdownDrains` covers them.
- Stop: as a method it runs alone; other callers, the cleanup service and a ready flush in progress are steps of `Pipeline`, so `ShutdownDrains` covers them.
- FlushAll: its deadline is a number of rounds, because wall-clock time is not modelled; as a method it runs alone, so that a sweep or delete between two of its replays is covered by `PipelineRefinesUpserts` and not by its losslessness clause.
- AddEvent: a send that waits is AddEvent up to the wait and AwaitRoom in the state in which it is woken.
- GetMetricsHistory: averages round in exact arithmetic; floating-point rounding is not modelled, and timestamps are at or after the epoch.
- updated_at of the typed tables, which nothing reads, and SQLite, pragmas, connection pools and read-write isolation below a statement.
- StoreWebhookEvent, the single-row store with retries, and nil entries in a batch: the pipeline uses neither.
- Timestamp text: times are integers, so comparisons between RFC 3339 text (section 5.1) and other formats are not modelled, nor is the retention of metrics_snapshots.
- JSON, HMAC validation and form decoding: deliveries arrive decoded or marked malformed.
- Events flushed before the handlers are registered during start-up.
- Event IDs, sequence IDs and the update timestamp carried by SSE payloads.
- Concurrent broadcasts: SSE broadcasts are serialised; their interleaving with subscribers, readers and disconnects is modelled.
- The ghws relay client, the API handlers, middleware, config, logging, Prometheus plumbing, the analytics SQL, the React frontend and the load tests.
