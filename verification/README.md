# Nexus OSINT: verified models of the search-job protocol, the task orchestrator and the caches

This project models the stateful parts of the search backend and of its browser client in Dafny, and proves what they
guarantee. `dafny verify dfyconfig.toml` checks everything.

## The parts

**The v2 search-job protocol.** A background worker writes a numbered event log and moves a guarded status row
(`JobStore`, `JobWorker`, `JobExecution`); event streams replay the log from a number on, poll, and drain once more when
they have read a final status (`EventStream`, `SseGenerator`); the browser reconnects from the last number it has seen and
drops what it has had (`JobReplay`); the page folds the delivered events into what it shows (`SearchView`). `SearchJob`
puts all of it into one state and lets everything interleave: worker steps, an exception or cancellation at any await, the
clock, the purge, any number of streams opened by anybody, broken connections, frames that are late or come twice,
reconnects that fail. Every statement about it is about every such run.

The code appears twice there, in two forms that are proved to agree. `JobExecution.Task`, `SseGenerator.Generate`,
`JobReplay.Connection` and `SearchView.Page` are the imperative code with its loops and fields; the machines in
`JobWorker`, `EventStream`, `JobReplay` and `SearchView` say what one stretch between two suspension points does. The
task's methods are proved to perform runs of the worker machine (`WorkerRuns` follows some of them step by step). The
generator's frames are proved to be a function of what its queries find and of the clock, and its events to be exactly
what the stream machine has sent when it stops after the same queries (`StreamRun`). The handlers are proved to compute
the client's transition functions. `GeneratorFrames` and `ViewContents` say what frames and page hold in terms of the clock
and of the events.

**The task orchestrator and the memory watchdog** (`Orchestrator`, `ReportOrder`, `Watchdog`). Tasks go through phases under two
semaphores, report through a queue, can be cancelled, and pass a soft admission gate whose ceiling the watchdog moves.

**The caches and limiters.** `Redaction` has the four regular expressions twice: as relations saying what they match, and
as greedy matchers with a leftmost, non-overlapping scan; `RedactionPatterns` has them at their limits, and
`TargetRedaction` says what becomes of the searched target and of the text around a match. `ConnectorCache` builds the
connector cache's write and read paths on it, and `CachedResults` spells out what they keep and accept. `OathnetCodec` is
the OathNet cache codec, `MemoryCache` the in-memory cache with expiry and counters, `BaselineCache` the bounded
least-recently-used cache, `RateLimiter` the timed mutual exclusion per domain.

**Decision arithmetic.** `Quorum` is the aggregator of connector results, `Scoring` the username scorer.

`Sequences`, `Integers`, `Wrappers`, `Text`, `Json` and `Connectors` hold what several parts share.

## How the protocol is modelled

- The database is a map of job rows, each with its log. A guarded update is one atomic step; the log insert relies on the
  uniqueness of (job, number) alone. Appending an event is two steps, the lookup with the payload check and the insert,
  because the code runs them as two statements.
- A stream reads the log and the status in separate steps. A cursor sees the rows that were there when it was opened.
- Frames arrive in order on each connection; a suffix may be lost. Frames of a connection that the client has already
  replaced may still arrive, and frames may arrive again.
- Time is a parameter: a job is visible while its expiry has not passed, and the purge removes it only after that.
- Every await of the worker can end in a cancellation or in an exception, of which there are three kinds: those of a
  connector that become an error result, those in one of the worker's two lists, after which it marks the job failed, and
  all others, which take the task down.
- Connector names are trimmed where the job store trims them, and only there.

## What the proofs turned up

- *Some exceptions leave a job running for good.* A timeout or a lost connection of the database, say, or an index error
  of a connector is in neither list of exceptions. The task then ends without touching the row, which stays as it is until
  it expires (`JobWorker.UnhandledExceptionLeavesJobRunning`). `JobExecution.Task.Work` gives the exact condition under
  which a job ends as done or failed.
- *A connector name with blanks around it fails the job at the summary.* The payload check trims names, the aggregator
  does not (`WorkerRuns.PaddedNameFailsJob`, `JobWorker.KnownIffUnpadded`).
- *A finished stream can lack events.* A stream that read a final status re-drains the log in a new query that checks the
  expiry again. If the row expires between the two, nothing comes: in the run of `SearchJob.StreamMissesTheOutcome` the
  job is done and the stream ends without a single event. `EventStream.EndedStreamIsComplete` gives the exact condition.
- *A client may wait for ever, even for a job that is done.* Once the worker has stopped, and while the job is visible, a
  client that the user does not close can come to its end exactly if the closing event was logged
  (`SearchJob.ClientCanStopIff`). So it keeps reconnecting for a job that failed or was abandoned, and also for one whose
  worker stopped between marking it done and logging the end (`SearchJob.DoneJobKeepsClientWaiting`).
- *The status may go from queued straight to failed.* It does so exactly if one of the worker's first two statements is
  broken off by an exception it handles and marking the job failed, the next statement, comes through before the job
  expires (`JobExecution.Task.Work`; step by step `JobWorker.QueuedToFailedIff` and `JobWorker.FailingWhileQueuedIff`;
  both inputs in `JobWorker.JobsFailFromTheQueue`). A first statement refused because of the expiry leaves the row queued.
- *The hysteresis needs the default limit.* An orchestrator built with fewer than five slots never returns to
  normal from a degraded mode, because the normal ceiling exceeds its own (`Watchdog.NeverNormalAgain`,
  `Watchdog.HysteresisIffDefaultLimits`); with exactly zero or two slots the gate of the mode with that ceiling is not in
  force (`Watchdog.DegradedNeverGrowsIff`).
- *A target that is part of the marker shows.* Searching for "red" turns the text "red" into "[redacted]". A target without
  brackets is absent from every redacted text exactly if it does not match inside the marker
  (`TargetRedaction.TargetNeverShowsIff`).
- *A task submitted while `cancel_all` waits loses its registration* (`Orchestrator.LateSubmissionIsOrphaned`); after
  `cancel_all` everything is at rest exactly if no such task is unfinished (`Orchestrator.CancellationEndsAtRestIff`).
- *A consumer of `results()` that is caught by `cancel_all` waits for ever* (`Orchestrator.CancelStrandsTheConsumer`),
  unless it was waiting for nothing (`Orchestrator.ConsumerFinishesIffNothingLeft`).

Where documentation and code differ, the model follows the code: the memory alert comment in api/watchdog.py speaks of
"more than" 85 % where the code compares with `>=`; the description of `results()` promises one item for each submission,
the code counts the submissions made when it starts, so the promise is kept exactly if none follows
(`Orchestrator.ResultsYieldEachModuleOnce`, `Orchestrator.EarlyConsumerMissesSubmission`).

## Model

| member | source | states |
|---|---|---|
| `Jobs.AfterIsSuffix` | api/services/job_store.py:587-625 | On a log numbered without gaps, replaying from a number gives exactly the events after it, in order |
| `Jobs.OnlyTheEndIsTerminal` | api/routes/search_v2.py:311-443 | In a log that follows the worker's script only the event after the summary is terminal, and no failure event occurs |
| `Text.TrimDropsBlanks` | api/services/job_store.py:204-206 | Trimming takes the blanks off both ends of a name and nothing else |
| `JobStore.AfterConcat` | api/services/job_store.py:600-625 | On any log replaying goes event by event: of two stretches together it gives what it gives of each |
| `JobStore.Store.ValidateConnectorNames` | api/services/job_store.py:198-207 | Returns the trimmed names, or refuses exactly if one of them, trimmed, is not registered |
| `JobStore.Store.CreateJob` | api/services/job_store.py:399-432 | A new job is queued with an empty log and its plan trimmed; a plan with an unregistered connector is refused and changes nothing |
| `JobStore.Store.MarkRunning` | api/services/job_store.py:435-446 | Succeeds exactly on a queued, unexpired row, and changes nothing else |
| `JobStore.Store.MarkDone` | api/services/job_store.py:449-483 | Succeeds exactly with a confidence in range, a non-negative duration and registered connectors, on a queued or running, unexpired row |
| `JobStore.Store.MarkFailed` | api/services/job_store.py:486-497 | Succeeds exactly on a queued or running, unexpired row |
| `JobStore.Store.CheckEvent` | api/services/job_store.py:558-572 | Accepts a payload exactly if the job is visible, the connector, trimmed, is registered and planned, its name is not overlong, and the score is in range |
| `JobStore.Store.InsertEvent` | api/services/job_store.py:573-584 | Appends to the log of an existing row, whatever its expiry, exactly if the number is new |
| `JobStore.Store.StreamEvents` | api/services/job_store.py:587-625 | Replays the events beyond a number, and nothing of an expired or missing job |
| `JobStore.Store.PurgeExpired` | api/services/job_store.py:628-641 | Removes exactly the expired jobs, with their events, and counts them |
| `JobWorker.StepKeepsInv` | api/routes/search_v2.py:311-496 | Every step, interruption, clock tick and purge keeps worker position, log, status and results in agreement |
| `JobWorker.LogFollowsScript` | api/routes/search_v2.py:311-443 | Over every run the log is a prefix of start, (connector start, result) for each planned connector, summary, end, numbered from 1; done implies 2k+2 or 2k+3 events, and the closing event implies done |
| `JobWorker.StepMovesForward` | api/services/job_store.py:435-497 | The status moves only queued to running or failed and running to done or failed; the log grows by at most one event and is frozen once failed |
| `JobWorker.QueuedToFailedIff` | api/services/job_store.py:486-497 | A step takes the row from queued straight to failed if and only if the worker marks the job failed while the row is visible and still queued |
| `JobWorker.FailingWhileQueuedIff` | api/routes/search_v2.py:311-327 | The worker comes to mark a queued job failed if and only if one of its first two statements meets a handled exception or a row that is no longer visible |
| `JobWorker.JobsFailFromTheQueue` | api/routes/search_v2.py:319-327 | Two runs from the start in which the row is failed without ever having been running: an exception at the first statement, and at the second |
| `JobWorker.TerminalStatesAbsorb` | api/services/job_store.py:449-497 | Over any further run done and failed stay, and the log of a failed job does not change |
| `JobWorker.OnlyForeignResultsFail` | api/routes/search_v2.py:311-443 | While the row is visible a step fails by itself if and only if a result names an unplanned connector or has a score out of range, or the batch is complete and a name has blanks around it |
| `JobWorker.KnownIffUnpadded` | api/routes/search_v2.py:407-418 | When all results are logged, the aggregator accepts the batch if and only if no connector name has blanks around it |
| `JobWorker.SummaryIsVerdictOfLoggedResults` | api/routes/search_v2.py:394-443 | The summary and the closing event carry the quorum verdict on exactly the results logged before them |
| `JobWorker.UnhandledExceptionLeavesJobRunning` | api/routes/search_v2.py:446-496 | An exception outside the two lists, right after the job was marked running, leaves it running with an empty log whatever happens later |
| `WorkerRuns.PaddedNameFailsJob` | api/routes/search_v2.py:394-418 | A connector that answers as " mock" where "mock" is planned: its result is logged as "mock", and the job fails at the summary |
| `JobExecution.Task.Suspend` | api/routes/search_v2.py:446-496 | During an await only the clock, the purge and its exit happen: normal, handled, or escaping |
| `JobExecution.Task.Emit` | api/routes/search_v2.py:237-253 | Appends exactly one event, trimmed, in two awaits, or leaves the job as it was because of an exit, the expiry or an inadmissible payload |
| `JobExecution.Task.RunConnector` | api/routes/search_v2.py:341-405 | One round of the plan takes five awaits and logs the connector's start and its result: its own outcome, unchanged, when it answers, and an error with score 0 when it raises an exception that is absorbed |
| `JobExecution.Task.RunPlan` | api/routes/search_v2.py:339-405 | The loop collects, in the order of the plan and in five awaits each, each connector's own outcome, or an error with score 0 for one that raised |
| `JobExecution.Task.Close` | api/routes/search_v2.py:409-443 | Logs the summary, marks the job done and logs the end, in this order; the job is done exactly if more than three of its five awaits were reached |
| `JobExecution.Task.Conclude` | api/routes/search_v2.py:407-443 | Fails without a further await if the aggregator refuses the batch, which then holds an unacceptable result; otherwise closes the job |
| `JobExecution.Task.ExecuteJob` | api/routes/search_v2.py:311-443 | A run of the worker machine; the log is complete exactly on a normal exit, with the results the connectors came back with, all of them acceptable; any other exit is due to the first await that did not end normally, the expiry or an unacceptable result; every result in the log is its connector's own outcome under the trimmed name, or the error |
| `JobExecution.Task.MarkFailed` | api/routes/search_v2.py:461-496 | The row becomes failed unless it is done already, has expired, or this await does not end normally either |
| `JobExecution.Task.Work` | api/routes/search_v2.py:446-496 | The row ends as done or failed if and only if the body got past closing the job, or its exception was handled and marking the job failed came through unexpired; unexpired and with acceptable results, if and only if no await before that broke with an escaping exception or one followed by a failed marking; the log is complete if and only if all awaits end normally and all results are acceptable; the row goes from queued straight to failed if and only if one of the first two awaits broke with a handled exception and the next came through unexpired; however it ends, every result in the log is its connector's own outcome under the trimmed name, or the error |
| `EventStream.AdvanceKeepsInv` | api/routes/search_v2.py:618-656 | Each stretch of the generator keeps what was sent, plus what the cursor holds, equal to the stretch of the log after its start |
| `EventStream.GrowthKeepsInv` | api/routes/search_v2.py:618-656 | So does everything the worker may do between two queries |
| `EventStream.EndedStreamIsComplete` | api/routes/search_v2.py:631-645 | A stream that ended on a final status has sent everything logged before that read if and only if the job was still visible at the last drain or nothing was outstanding |
| `EventStream.FinalStatusMeansDelivered` | api/routes/search_v2.py:631-645 | A stream that read done has delivered everything through the summary, one that read failed the whole log |
| `EventStream.ExpiryAfterTheReadLosesEvents` | api/routes/search_v2.py:631-645 | If the row expires right after the status was read, the outstanding events are not sent |
| `SseGenerator.Generate` | api/routes/search_v2.py:611-656 | It terminates; its frames, heartbeats included, are exactly the transcript of its queries and clock up to the first round that finds the status final or the time up |
| `SseGenerator.FramesAreDetermined` | api/routes/search_v2.py:618-656 | There is only one such first round, so what the queries find and the clock shows determine every frame |
| `SseGenerator.Drain` | api/routes/search_v2.py:622-629 | One replay yields exactly the rows beyond the last number sent |
| `SseGenerator.EventsOfTranscript` | api/routes/search_v2.py:618-656 | The events in a transcript are those of its replays; a timeout frame comes exactly if the status was not final, and only when the time is up |
| `SseGenerator.GeneratorIsMachine` | api/routes/search_v2.py:618-656 | After the generator's queries, and not before, the stream machine has stopped, and it has sent exactly the generator's events |
| `SseGenerator.GeneratedIsComplete` | api/routes/search_v2.py:631-645 | Whatever the worker does meanwhile the events are a gapless stretch of the log; on a final status they include everything logged by then if and only if the job was visible to the last replay or nothing was outstanding |
| `GeneratorFrames.StopsWhen` | api/routes/search_v2.py:631-655 | The last round is the first that finds the job done, failed or gone, or three minutes gone by |
| `GeneratorFrames.BeatsEvery15Seconds` | api/routes/search_v2.py:648-651 | A round beats exactly if the last beat, or the start if there was none, is at least 15 seconds ago |
| `GeneratorFrames.BeatsOfTranscript` | api/routes/search_v2.py:618-655 | Every beat due is among the frames, right behind the events of its round, and there is no other |
| `StreamRun.QueryReplays` | api/routes/search_v2.py:622-629 | Over one replay query the stream machine sends exactly the rows of its cursor |
| `SseGenerator.WorkerRunsEvolve` | api/routes/search_v2.py:311-496 | Any two moments of a worker's run satisfy what the generator assumes of successive queries |
| `JobReplay.Connection.constructor` | static/js/job-replay.js:51-58 | Connecting opens the first source at once from the number it is given, or arms the retry timer |
| `JobReplay.Connection.Close` | static/js/job-replay.js:60-64 | Closes the source and disarms the timer |
| `JobReplay.Connection.HandleEvent` | static/js/job-replay.js:66-76 | An event is handed on exactly if its number is higher than the last; a terminal one closes the client |
| `JobReplay.Connection.ScheduleReconnect` | static/js/job-replay.js:78-82 | Arms the timer unless the client is closed or terminal |
| `JobReplay.Connection.Open` | static/js/job-replay.js:84-96 | Reopens from the last number seen, or arms the timer again |
| `JobReplay.Connection.OnError` | static/js/job-replay.js:106-109 | A broken source is closed and a reconnect scheduled |
| `JobReplay.HandlersKeepInv` | static/js/job-replay.js:60-112 | A client that is not closed either listens or is about to retry, never both; a closed one does neither |
| `SearchJob.ApplyKeepsInv` | api/routes/search_v2.py:311-656 | Every step of worker, streams, network and client keeps the joint invariant |
| `SearchJob.StepsOfOthers` | static/js/job-replay.js:51-112 | What each step of a stream, the network, the client and the user changes, and when it is possible: every frame sent may arrive in order and again, and a client hands on what is new |
| `SearchJob.RepeatedFrameIsDropped` | static/js/job-replay.js:66-69 | In a state with the invariant a frame that arrives again changes nothing |
| `SearchJob.ClientSeesLogPrefix` | static/js/job-replay.js:66-110 | Over every run the events handed on are the log from 1 to the last number seen, without gap or repeat, nothing after a terminal event; the client is terminal exactly with the whole log of a done job |
| `SearchJob.FinishedStreamsAreComplete` | api/routes/search_v2.py:618-656 | In every reachable state every finished stream is complete as above, whoever opened it |
| `SearchJob.StreamMissesTheOutcome` | api/routes/search_v2.py:631-645 | A run from the start after which the job is done, two events are logged and a stream has ended on the final status without any |
| `SearchJob.UnfinishedJobKeepsClientWaiting` | api/routes/search_v2.py:461-496 | A job that is not done has no terminal event, so a client the user does not close listens or is about to retry in every reachable state |
| `SearchJob.ClientCanStopIff` | static/js/job-replay.js:66-112 | Once the worker has stopped and while the job is visible, an open client can become terminal if and only if the closing event was logged |
| `SearchJob.DoneJobKeepsClientWaiting` | api/routes/search_v2.py:420-443 | A run from the start after which the job is done, its worker gone before the closing event, and the client can never stop |
| `SearchJob.DeliveredGrows` | static/js/job-replay.js:66-76 | What was handed on stays handed on over any further run |
| `SearchJob.ReconnectCatchesUp` | static/js/job-replay.js:84-110 | From every state in which the job is visible and the client waits to retry, one reconnect that is followed through delivers the whole log |
| `SearchView.Page.RebuildLegacyAggregates` | static/js/v2-search.js:276-298 | The loop counts breach and stealer hits and checked, found and likely profiles over the result list |
| `SearchView.Page.StoreConnectorResult` | static/js/v2-search.js:267-274 | Replaces the connector's entry or adds one at the end, then rebuilds list and counters; a nameless result is ignored |
| `SearchView.Page.UpdateProgress` | static/js/v2-search.js:300-309 | 10 plus the rounded share of 85, at most 95; 15 without a plan |
| `SearchView.Page.RememberEvent` | static/js/v2-search.js:311-317 | Keeps the highest number and the list of events seen |
| `SearchView.Page.HandleEvent` | static/js/v2-search.js:851-903 | The handler computes the page's transition function and raises exactly on a failure event |
| `SearchView.PageMirrorsLog` | static/js/v2-search.js:267-298 | For every log the page holds one entry per reported connector, in the order of first report for names that are not integers, each the latest result |
| `SearchView.CountersCountConnectors` | static/js/v2-search.js:276-298 | Each counter is the number of connectors whose latest result qualifies |
| `ViewContents.CountersByPrefix` | static/js/v2-search.js:276-298 | The five counters by name prefix and status of the latest result |
| `ViewContents.TableHoldsLastReported` | static/js/v2-search.js:267-270 | The table holds, for every name, the last result that the log reports under it, and nothing else |
| `ViewContents.ListFollowsFirstReports` | static/js/v2-search.js:267-270 | The list has one entry for each name, in the order of first report |
| `ViewContents.StartedAreAnnounced` | static/js/v2-search.js:862-870 | The page lists every connector whose start was announced, once, in the order of first announcement |
| `SearchView.PageRemembersLog` | static/js/v2-search.js:311-317 | After a log numbered from 1 the last number is its length and the events seen are the log |
| `SearchView.ProgressNeverDecreases` | static/js/v2-search.js:851-896 | Over a job's log progress never decreases: 8, then 10 to 95, 98 exactly at the summary, 100 exactly at the end |
| `ViewContents.ProgressShown` | static/js/v2-search.js:300-309 | Over a job's log: 8, then 10, then 10 and the nearest share of 85 up to 95, 98 with the summary and 100 at the end |
| `SearchView.PageNeverGoesBack` | static/js/v2-search.js:851-903 | Over every run of the protocol the page is a function of the log up to the last number seen, forgets nothing, and its progress never decreases |
| `SearchView.CompletePageShowsVerdict` | static/js/v2-search.js:881-896 | The page is at 100 exactly when the client is terminal, and then shows the quorum verdict on the logged results |
| `Orchestrator.TaskOrchestrator.constructor` | api/orchestrator.py:77-90 | A new orchestrator has all permits, no tasks and the ceiling at its limit |
| `Orchestrator.TaskOrchestrator.Submit` | api/orchestrator.py:94-127 | Registers a waiting task and counts it, or refuses exactly when the ceiling is below its limit and that many tasks are registered |
| `Orchestrator.TaskOrchestrator.Acquire` | api/orchestrator.py:224-230 | Takes the next permit in the fixed order, OathNet before global, or waits |
| `Orchestrator.TaskOrchestrator.FinishModule` | api/orchestrator.py:232-255 | A finished or failed module puts exactly its own outcome and content at the end of the queue, deregisters and gives every permit back |
| `Orchestrator.TaskOrchestrator.NextResult` | api/orchestrator.py:142-144 | Yields the oldest queued report, or waits |
| `Orchestrator.TaskOrchestrator.SetCeiling` | api/orchestrator.py:161-170 | Refuses a ceiling above the initial one and then changes nothing |
| `Orchestrator.TaskOrchestrator.EndCancel` | api/orchestrator.py:194-204 | Once the cancelled tasks are over, registry and queue are emptied |
| `Orchestrator.TaskOrchestrator.CancelAll` | api/orchestrator.py:180-204 | Run alone, cancelling is the machine's sequence of steps and leaves registry and queue empty |
| `Orchestrator.RunKeepsInv` | api/orchestrator.py:94-255 | Permits, registration and reports stay in agreement in every reachable state |
| `Orchestrator.CeilingsHold` | api/orchestrator.py:77-90 | In every reachable state free permits and holders add up to the capacities; with no global permit free at least the difference of the limits is held by other modules |
| `Orchestrator.NoDeadlock` | api/orchestrator.py:208-230 | With an unfinished task some task can proceed |
| `Orchestrator.NoPermitNoResult` | api/orchestrator.py:224-230 | The exception: a task whose permits do not exist never delivers |
| `Orchestrator.EverySchedulingCompletes` | api/orchestrator.py:208-255 | However the tasks are scheduled, the number of steps is bounded by the work left, and when none can proceed all have finished |
| `Orchestrator.SubmissionsAreConserved` | api/orchestrator.py:122-144 | Without cancellation submitted tasks are the unfinished, the queued and the yielded ones, and the registry holds exactly the unfinished |
| `Orchestrator.ResultsYieldEachModuleOnce` | api/orchestrator.py:129-144 | A consumer never gets two reports of a module and never waits in vain; when it is through it has had one of every module, failures included, if and only if nothing was submitted after it started; what the reports say is in `ReportOrder.ReportsAreWhatModulesDelivered` |
| `ReportOrder.ReportsAreWhatModulesDelivered` | api/orchestrator.py:232-255 | Over every run each report, had or queued, is what the module of its task finished with, outcome and content included, in the order in which the modules finished; as long as no cancellation has ended none is missing |
| `Orchestrator.EarlyConsumerMissesSubmission` | api/orchestrator.py:142-144 | A consumer that starts before the only submission is through without its report |
| `Orchestrator.OrphanedIffLateAndUnfinished` | api/orchestrator.py:187-197 | A task loses its registration unfinished if and only if it was submitted during the cancellation and is not over |
| `Orchestrator.RestIffNothingLate` | api/orchestrator.py:180-204 | When the cancellation ends, everything is at rest, with all permits free, if and only if no late submission and no earlier orphan is unfinished |
| `Orchestrator.CancellationEndsAtRestIff` | api/orchestrator.py:180-204 | The same over whole runs: from the moment the cancellation begins, through anything else, to its end |
| `Orchestrator.LateSubmissionIsOrphaned` | api/orchestrator.py:187-197 | A run from the start after which a submitted module waits unregistered |
| `Orchestrator.CancelStrandsTheConsumer` | api/orchestrator.py:142-144 | A run from the start after which everything is at rest and a consumer still expects a report that can never come |
| `Orchestrator.ConsumerFinishesIffNothingLeft` | api/orchestrator.py:142-144 | After a cancellation, with nothing submitted later, a consumer can finish if and only if it was waiting for nothing |
| `Orchestrator.RestYieldsNothing` | api/orchestrator.py:142-144 | At rest, whatever happens short of a submission, a consumer gets nothing more |
| `Watchdog.ApplyDegradation` | api/watchdog.py:68-94 | Ceiling and mode change together, exactly on a transition whose ceiling the orchestrator accepts |
| `Watchdog.ModeFollowsSamples` | api/watchdog.py:45-57 | After any samples the mode is the class of the last one outside the band, or normal, and the ceiling that of the mode |
| `Watchdog.LastDecisiveSampleRules` | api/watchdog.py:45-65 | The last sample below 75 or from 80 on sets the mode, and the ceiling to 5, 2 or 0, however many samples between follow |
| `Watchdog.HysteresisIffDefaultLimits` | api/watchdog.py:60-94 | The mode follows the samples if and only if the limit is at least 5; the ceiling always fits the mode if and only if it is 5 |
| `Watchdog.StuckBelowNormal` | api/watchdog.py:84-87 | The counterexample below 5: after pressure and relief the mode is still critical |
| `Watchdog.NeverNormalAgain` | api/watchdog.py:84-87 | Below five slots, once degraded the mode is never normal again, over all samples |
| `Watchdog.DegradedNeverGrowsIff` | api/orchestrator.py:117-127 | While degraded the registry never exceeds its size at the transition or the ceiling, over every interleaving, if and only if the limit is neither 0 nor 2 |
| `Watchdog.SamplesKeepInvariant` | api/watchdog.py:68-94 | A sample touches nothing but ceiling and mode |
| `Redaction.MatcherIsSound` | modules/connectors/runner.py:41-44 | What a matcher finds is a match of its pattern |
| `Redaction.MatcherIsGreedy` | modules/connectors/runner.py:41-44 | If the pattern can match from a position the matcher finds a match there, and no shorter one |
| `Redaction.SearchIffNotClean` | modules/connectors/runner.py:506-509 | Searching succeeds exactly if some stretch of the text matches |
| `Redaction.Provenance` | modules/connectors/runner.py:495-498 | A bracket-free stretch of a substitution's output lies in a marker or was copied from where no match starts |
| `Redaction.SubCleans` | modules/connectors/runner.py:495-498 | Substituting e-mails or phones leaves none |
| `Redaction.SubKeepsClean` | modules/connectors/runner.py:495-498 | A later substitution never brings an e-mail or phone back |
| `Redaction.UrlSubCleans` | modules/connectors/runner.py:498 | Substituting URLs leaves none, though they may run through brackets |
| `Redaction.CpfIsPhone` | modules/connectors/runner.py:42-44 | Every match of the CPF pattern is a match of the phone pattern, so the phone substitution leaves no CPF either |
| `Redaction.SanitizedTextIsRedacted` | modules/connectors/runner.py:488-499 | For every text and target the output holds no match of any of the four patterns |
| `TargetRedaction.TargetIsRedacted` | modules/connectors/runner.py:488-499 | For every text: a target without brackets, and not part of the marker's own text, does not occur in the output, in whatever case |
| `TargetRedaction.TargetNeverShowsIff` | modules/connectors/runner.py:491-499 | A target without brackets is absent from every output if and only if it does not match inside the marker |
| `RedactionPatterns.BracketedTargetMayShow` | modules/connectors/runner.py:494-497 | The input that shows the condition on brackets is needed: the marker completes the target |
| `TargetRedaction.TextWithoutMatchesIsKept` | modules/connectors/runner.py:488-499 | A text in which neither the target nor a pattern occurs is kept as it is |
| `TargetRedaction.SubReplacesTheMatch` | modules/connectors/runner.py:494-498 | Where a pattern matches once, the marker takes the place of the match and what stands around it is kept |
| `RedactionPatterns.DigitsArePhoneIff` | modules/connectors/runner.py:42 | Digits are a phone number exactly from eight on |
| `RedactionPatterns.PhoneTakesSeparators` | modules/connectors/runner.py:42 | A phone number spans blanks, parentheses, dots and dashes between its digits, and a plus sign before it |
| `RedactionPatterns.TwoLabelsAreEmail` | modules/connectors/runner.py:41 | A local part, an at sign and two labels with a dot between them are one e-mail address |
| `RedactionPatterns.EmailNeedsAtAndDot` | modules/connectors/runner.py:41 | Without an at sign followed by a dot there is none |
| `RedactionPatterns.EmailNeedsHost` | modules/connectors/runner.py:41 | Nor with a dot right behind the at sign |
| `RedactionPatterns.SchemeAndMoreIsUrl` | modules/connectors/runner.py:43 | A scheme in either case and one visible character or more are a URL |
| `RedactionPatterns.UrlNeedsMore` | modules/connectors/runner.py:43 | A scheme alone, or followed by a blank, is none |
| `RedactionPatterns.CpfGoesFirst` | modules/connectors/runner.py:496-497 | A CPF number is replaced before phone numbers are looked for, so the digit behind it is kept |
| `RedactionPatterns.CpfNeedsBoundary` | modules/connectors/runner.py:44 | The same digits next to a letter or another digit are no CPF number |
| `Redaction.RedactedIsFixed` | modules/connectors/runner.py:488-499 | Redacted text is a fixed point |
| `Redaction.ResidualCheckIffNotRedacted` | modules/connectors/runner.py:502-509 | The residual check accepts exactly the redacted texts |
| `TargetRedaction.SensitiveIffTargetOrPattern` | modules/connectors/runner.py:502-509 | With a target, the check accepts exactly the redacted texts that do not contain it once both are case-folded |
| `Redaction.SanitizeIsIdempotent` | modules/connectors/runner.py:488-509 | Sanitizing the output again changes nothing, and the check finds nothing in it |
| `ConnectorCache.WrittenEntryReadsBack` | modules/connectors/runner.py:284-314 | Every written entry is accepted when read and gives the result with its texts redacted, under the caller's name |
| `CachedResults.WrittenEntryIsRedaction` | modules/connectors/runner.py:284-314 | The same field by field: header kept, every text sanitized, an address that shows anything dropped, the data cut down to its allowed keys, no cache hit |
| `CachedResults.StoredEntryIsRedacted` | modules/connectors/runner.py:415-434 | What is stored in the first place, field by field |
| `CachedResults.StoredEvidenceIsRedacted` | modules/connectors/runner.py:437-442 | The same of its evidence |
| `CachedResults.OnlyAllowedKeysSurvive` | modules/connectors/runner.py:445-476 | Of any data exactly the keys category, labels, platform, source and tags survive, in whatever case, with the target's hash; their strings are sanitized, lists cut after 25 items, objects replaced by the marker |
| `CachedResults.BecomesIsFunctional` | modules/connectors/runner.py:467-476 | What a value becomes is determined by these rules |
| `CachedResults.FlaggedIffPoisoned` | modules/connectors/runner.py:317-351 | The residual check flags exactly the payloads that show a text which is not redacted |
| `CachedResults.AcceptedIff` | modules/connectors/runner.py:292-314 | An entry is accepted if and only if it is an envelope of schema version 1, marked as sanitized, with a payload that shows no such text and whose evidence weights are in range |
| `CachedResults.AcceptedDataIsAllowed` | modules/connectors/runner.py:354-374 | Whatever was accepted has the entry's header and warnings, only its allowed data, and its address unless that shows anything |
| `CachedResults.AcceptedEvidenceIsRedacted` | modules/connectors/runner.py:366-370 | Its evidence is that of the entry's items that are objects, sanitized, in their order |
| `ConnectorCache.AcceptedEntryIsFreeOfPii` | modules/connectors/runner.py:292-374 | Whatever stands in the cache, an accepted result has no match of any pattern at any depth, and the caller's name and hash |
| `ConnectorCache.SanitizedPayloadIsSafe` | modules/connectors/runner.py:415-485 | Sanitizing any payload leaves only redacted strings in its free fields; which keys are left is said by `CachedResults.OnlyAllowedKeysSurvive` |
| `ConnectorCache.SafePayloadIsFixed` | modules/connectors/runner.py:354-374 | Re-sanitizing a safe payload changes nothing but the connector |
| `ConnectorCache.SafePayloadHasNoResidue` | modules/connectors/runner.py:317-351 | A safe payload is never flagged |
| `OathnetCodec.DropRawOnPaths` | api/services/search_service.py:47-56 | Exactly the paths through a raw key disappear; every other leads where it did |
| `OathnetCodec.DropRawKeepsTheRest` | api/services/search_service.py:47-56 | On the other paths scalars stay as they were, lists keep their length and objects all keys but the raw ones |
| `OathnetCodec.DropRawIsIdempotent` | api/services/search_service.py:47-56 | Dropping raw parts twice is dropping them once |
| `OathnetCodec.CacheRoundTrip` | api/services/search_service.py:64-88 | Decoding an encoded result gives the result with everything raw erased at every depth; a second trip loses nothing |
| `OathnetCodec.CacheKeepsEveryField` | api/services/search_service.py:64-88 | The same field by field, for the result, its meta block and every record |
| `OathnetCodec.DecodingFailsIff` | api/services/search_service.py:69-82 | Decoding fails if and only if a record list is a number, a truth value or null |
| `OathnetCodec.RecordsOfDropped` | api/services/search_service.py:73-82 | Breaches and stealers keep their number and order |
| `MemoryCache.InMemoryCacheBackend.Get` | api/cache.py:76-95 | Answers from the map, drops expired and unreadable items, and counts hits, misses and, for unreadable ones, errors |
| `MemoryCache.InMemoryCacheBackend.Set` | api/cache.py:97-109 | Stores an acceptable value with its expiry; rejected ones only count an error, none does nothing |
| `MemoryCache.InMemoryCacheBackend.Stats` | api/cache.py:111-123 | The two loops remove exactly the expired items |
| `MemoryCache.GetAnswersTheTimedMap` | api/cache.py:76-109 | After any history a get answers the last accepted set of its key exactly while it is unexpired and readable |
| `MemoryCache.StoredIsServedUntilExpiry` | api/cache.py:76-109 | A stored value is served, whatever else happens, until the time-to-live of the call, or the default if it gave none, is over |
| `MemoryCache.UnstoredIsMissing` | api/cache.py:76-83 | What was not stored since the cache was emptied is not served |
| `MemoryCache.EveryGetIsCounted` | api/cache.py:76-95 | Hits and misses add up to the gets |
| `MemoryCache.StatsIsInvisible` | api/cache.py:111-123 | A purge in between never changes an answer |
| `BaselineCache.BaselineCache.Lookup` | modules/username_check/baseline.py:70-77 | A hit moves the entry to the end, an expired one is dropped |
| `BaselineCache.BaselineCache.Remember` | modules/username_check/baseline.py:55-61 | Stores at the end and evicts from the front until the bound holds |
| `BaselineCache.StoreAppends` | modules/username_check/baseline.py:55-61 | A new key goes to the end, good for an hour, and what exceeds the bound is dropped from the front |
| `BaselineCache.StoreReplaces` | modules/username_check/baseline.py:55-61 | A key that is there goes to the end with its new value in the same way |
| `BaselineCache.BaselineCache.Clear` | modules/username_check/baseline.py:51-52 | Empties the cache |
| `BaselineCache.BoundedAndDistinct` | modules/username_check/baseline.py:55-61 | After any history the bound holds and no key occurs twice |
| `BaselineCache.HitIsLatestAndFresh` | modules/username_check/baseline.py:70-76 | A hit is the fetch stored last for its key, stored less than the time-to-live ago |
| `BaselineCache.Retention` | modules/username_check/baseline.py:55-77 | An unexpired entry is still found while fewer than N other keys were used since its last use |
| `BaselineCache.StoredIsFound` | modules/username_check/baseline.py:55-77 | What was stored is found, as it was stored, for an hour, while fewer than N other keys are used |
| `BaselineCache.EvictedByNewKeys` | modules/username_check/baseline.py:59-60 | The bound is tight: storing N other keys evicts it |
| `RateLimiter.OutboundRateLimiter.Enter` | modules/username_check/rate_limit.py:19-20 | At most one task holds a domain's lock |
| `RateLimiter.OutboundRateLimiter.Check` | modules/username_check/rate_limit.py:21-26 | Sleeps exactly for what is left of the interval since the last grant, if anything |
| `RateLimiter.OutboundRateLimiter.Stamp` | modules/username_check/rate_limit.py:27 | Records the grant and gives the lock back |
| `RateLimiter.OutboundRateLimiter.Acquire` | modules/username_check/rate_limit.py:19-27 | The whole call on a free domain: granted after the rest of the interval, or, cancelled in its sleep, the domain as it was |
| `RateLimiter.GrantsAreSpaced` | modules/username_check/rate_limit.py:19-27 | Over every interleaving consecutive grants on a domain are at least the interval apart |
| `RateLimiter.HolderFinishes` | modules/username_check/rate_limit.py:19-27 | The lock is kept no longer than the interval |
| `RateLimiter.DomainsAreIndependent` | modules/username_check/rate_limit.py:13-27 | Leaving out what happens on other domains changes nothing on this one |
| `Quorum.AggregateResults` | api/services/search_orchestrator.py:105-195 | Refuses at the first unknown connector, otherwise computes the summary |
| `Quorum.CountersPartitionTheBatch` | api/services/search_orchestrator.py:129-140 | The eight counters sum to the number of results; the agreement ratio is a fraction |
| `Quorum.SummaryCountsStatuses` | api/services/search_orchestrator.py:129-140 | Each counter counts its own status; the level follows the confidence at 85, 60 and 30 |
| `Quorum.AgreementIsShareOfDecisive` | api/services/search_orchestrator.py:168-171 | The agreement ratio is the share of the positive among the decisive results |
| `Quorum.FindersAreConnectors` | api/services/search_orchestrator.py:142-143 | Finders are counted once for each connector |
| `Quorum.ConnectorsRunInFirstSeenOrder` | api/services/search_orchestrator.py:172-178 | Each connector is listed once, in the order of first appearance |
| `Quorum.OrderIrrelevant` | api/services/search_orchestrator.py:105-195 | Reordering the batch changes nothing but the order of the listed connectors |
| `Quorum.FoundIffQuorum` | api/services/search_orchestrator.py:142-144 | Found exactly with two finders of different names; the confidence is the mean of the scores found, each held between 0 and 100, rounded down, and so lies between them |
| `Quorum.ConfidenceIsMean` | api/services/search_orchestrator.py:80-83 | With a quorum the confidence is the mean of the scores found, without any finder that of the likely ones, each score held between 0 and 100, rounded down |
| `Quorum.SingleFinderIsCapped` | api/services/search_orchestrator.py:145-148 | A single finder gives likely at its best score, held between 0 and 70 |
| `Quorum.LikelyIffSomeFinderWithoutQuorum` | api/services/search_orchestrator.py:142-166 | Likely exactly when somebody found or suspected without a quorum; other verdicts carry no confidence |
| `Quorum.UnanimousVerdicts` | api/services/search_orchestrator.py:152-166 | Not found, error and blocked mean unanimity, both ways |
| `Quorum.QuietResultsKeepPositiveVerdict` | api/services/search_orchestrator.py:142-151 | Results that are neither found nor likely never change a found or likely verdict |
| `Scoring.Flatten` | modules/username_check/scoring.py:36-45 | Concatenates signals and warnings; the last baseline validator decides whether a baseline was used |
| `Scoring.FlattenOne` | modules/username_check/scoring.py:40-44 | Of one outcome the flattened lists are its own |
| `Scoring.FlattenConcat` | modules/username_check/scoring.py:40-44 | The flattened lists are the signals and warnings of the outcomes, one outcome after the other |
| `Scoring.CombineOutcomes` | modules/username_check/scoring.py:48-115 | A fetch error makes the result invalid; otherwise verdict, evidence, with its placeholder when there is no signal, and warnings come from the flattened lists |
| `Scoring.OrderIrrelevant` | modules/username_check/scoring.py:64-103 | The verdict depends only on the multiset of signals and the set of warnings |
| `Scoring.VerdictIgnoresOutcomeOrder` | modules/username_check/scoring.py:36-103 | Reordering the outcomes leaves the verdict as it is |
| `Scoring.SupportNeverHurts` | modules/username_check/scoring.py:64-103 | One more supporting signal never lowers score or status |
| `Scoring.VerdictsAreEarned` | modules/username_check/scoring.py:79-103 | What each status requires, both ways, and the score that goes with it, in terms of the total weight, the number of positive signals and what the validators flagged |

## Left out

- HTTP routing, authentication, owner scoping of jobs, logging, and the Redis and Postgres drivers: the store is the map described above.
- Text framing of the event stream and of cached JSON: frames, cached values and payloads are structured values; heartbeat and timeout frames are kept as such.
- JobStore.Store.CheckEvent: of `sanitize_event_payload` only the checks that can stop a worker are kept (planned connector, length of its name, score range); the other per-field checks concern values the worker never sends.
- Real delivery times: nothing is claimed about when the client reconnects, only what it then gets. A reconnect that is always cut short makes no progress.
- JobWorker.UnhandledExceptionLeavesJobRunning: an interruption counts as coming before the statement it hits; one that comes after the statement took effect is one at the next await.
- JobExecution.Task.ExecuteJob: entering and leaving the HTTP client around the plan are not counted among the awaits; leaving it could replace the exception on its way out by another.
- SseGenerator.Generate: a cancelled generator just stops; dropped streams are part of the machine in `SearchJob`, not of this method.
- `cancel_all` with nothing to cancel runs without giving way; here others may run before it ends in that case too.
- SearchView.PageMirrorsLog: a JavaScript object would list integer-like names first; no registered connector has one.
- SearchView.Page.UpdateProgress: the rounded percentage is exact here; JavaScript divides and multiplies in binary floating point first.
- SearchView.Page.HandleEvent: elapsed time, timestamps, module rows and rendering are not modelled.
- Quorum.AggregateResults: the agreement ratio is the exact quotient, not rounded to four digits.
- Python strings: the character classes outside ASCII, case folding and `lower` are parameters, so the results hold for every choice of them; the SHA-256 of cache keys is the key itself, that is, no collisions.
- TargetRedaction.TargetIsRedacted: it promises nothing of a target with a character that passes for a bracket, since the marker may complete it (`RedactionPatterns.BracketedTargetMayShow`); which such targets are safe is not said.
- ConnectorCache.AcceptedEntryIsFreeOfPii: of the validation of a payload read from the cache only the evidence weights can fail; status, score, level and times are carried as well-formed values.
- `_limiter_for` and `run_connector`: choosing a limiter by rate and the calls to connectors and their time limits.
- The network fetch between a baseline lookup and its storing; the cache operations are modelled, fetch errors store nothing.
- Several consumers of `results()` at once, the process-wide orchestrator object and its lock.
- Fairness of semaphores: any waiting task may go next, so every scheduling is covered and none is promised.
- `_stream_search`, SpiderFoot, reports, exports, saved cases, budget counters and the admin pages: input and output around what is modelled.
