# Verified model of the flash-sale operations backend

This project models, in Dafny 4.11, the parts of the repository that carry state or
arithmetic worth a proof:

- **The job scheduler and its live log stream.** A job is run by one goroutine that walks
  through a script of operations (set the status, append to the log, publish, persist, close the
  subscribers). `Stream.dfy` interleaves that goroutine with any number of HTTP stream handlers,
  their cancellations and the trimming done by other jobs; a step is one critical section or one
  channel operation. `StreamWindow.dfy` and `StreamWitness.dfy` treat trims near the end of a job.
  `Fleet.dfy` puts any number of such jobs behind the shared index (`JobIndex.dfy`) that `StartJob`
  extends and trims, and `FleetStreams.dfy` carries the stream theorems over to its runs.
  `ExecutorTrace.dfy` and `JobScript.dfy` show that every trace the executor can produce drives a
  job through a script of the required shape, `ExecutorProgress.dfy` that its runs end, and
  `LiveOutput.dfy` follows each printed line from the process through trace and script to the
  handlers.
- **The same scheduler as mutable objects.** `JobRecord.dfy`, `Subscribers.dfy` and `Scheduler.dfy`
  are classes whose methods update fields, maps and channels. Their invariant says that list and map
  are in step, that channels are in place and open, that every record's log index describes its
  files, and that the log directory holds finished jobs only, each as it is in memory (`JobTable.dfy`).
- **The job log and the restart.** `JobLog.dfy` is the bounded buffer with its hourly archive files;
  `Restart.dfy` is what is left on disk and what a fresh scheduler reads back, and `FleetRestart.dfy`
  shows that a restarted scheduler is where the fleet's runs start.
- **The load generators and their summary.** `LoadGen.dfy` is the closed and the open generator
  (producer, workers, collector, shutdown over bounded channels) as one step system; `LoadWorkers.dfy`
  says how much of it runs at once. `Report.dfy`, `Latency.dfy` and `LoadSummary.dfy` carry its results
  into the summary and the verdict, and `SummaryMeaning.dfy` says what those mean for the results.
- **Monitor samples.** `SampleStore.dfy` (hourly files, range query, cleanup), `Retention.dfy` with
  `Calendar.dfy` (queries across cleanups), `Downsample.dfy`, `PerfMerge.dfy` (two-pointer merge) and
  `Enrich.dfy` (query, then merge).
- **Utilities.** `Snowflake.dfy` (FNV-1a node ids), `OrderNumber.dfy` (the text hashed into an
  order number), `RedisLock.dfy` (the token lock under expiry).

Three findings are stated as theorems with their exact conditions:

- A stream handler is left waiting for ever exactly when `trimJobsLocked` dropped its channel.
  Excluding trims between the terminal status and the close is not enough: a handler that
  subscribes after the close, and whose job is trimmed before its status check, waits for ever
  although no trim fell into that window (`StreamWitness.TrimAfterCloseStrandsHandler`). In runs
  without such a trim these late handlers are exactly the ones stranded
  (`StreamWindow.StrandedOnlyIfLate`).
- `Query` is exact for every history and range if and only if local time gives each hour of absolute
  time a file of its own; a half-hour offset loses samples, and an hour repeated by a clock change
  returns samples twice (`SampleStores.QueryExactIff`).
- The comment on `NewNode` expects different hostnames to give different node ids. Under one positive
  `cfgNode` they do so if and only if a 5-bit fold of the low five bits of their bytes differs
  (`Snowflake.HostnamesCollide`): "web" and "WEB" collide, and so do two of any 33 hostnames.

Conventions: a step system is a state datatype with `Enabled`, `Apply` and `Execution`; results are
about every execution. Methods are proved against functions on values, and the theorems are about
those functions. Disk directories are maps, JSON encoding is the identity on records, UUIDs are
fresh identifiers, and outcomes of I/O are parameters. A `hide` statement at the head of a proof
names definitions that proof does not need. `dafny verify dfyconfig.toml` checks everything.

## Model

The first 36 rows are the main results; the others support them.

| member | source | states |
|---|---|---|
| StreamWindow.StrandedOnlyIfLate | ops/backend/api/task_handler.go:99-147 | For every run without a trim between the terminal status and the close: once the owner is done, a handler is left on an open channel if and only if it subscribed after the close had taken the subscribers and found its job gone at the status check |
| Stream.StreamTermination | ops/backend/api/task_handler.go:99-147 | Once the owner is done, a handler in the loop waits on an open channel if and only if a trim dropped that channel |
| Stream.NoHandlerLeftWaiting | ops/backend/api/task_handler.go:99-147 | If no trim of a run meets a registered subscriber, no handler is ever left on an open channel |
| FleetStreams.NobodyStranded | ops/backend/api/task_handler.go:99-147 | Over runs of the whole fleet: if no StartJob trims a job somebody is registered for, no handler of any job is left waiting |
| FleetStreams.StrandedOnlyIfLateInFleet | ops/backend/api/task_handler.go:99-147 | If no StartJob trims a job between its terminal status and its close, the handlers stranded in any job are exactly the late ones whose job was gone |
| LiveOutput.EveryPrintedLine | ops/backend/executor/executor.go:134-202 | End to end: every line an internal task printed, on either stream and in that stream's order, is in the log snapshot of every handler that is in the receive loop when the job is done, or was offered on its channel |
| LiveOutput.EveryLineReachesHandlers | ops/backend/api/task_handler.go:99-147 | The same for every log line of any executor trace |
| Stream.NoLostLine | ops/backend/scheduler/scheduler.go:394-435 | A handler that found its job at the status check has taken its snapshot, and every tagged line published so far is in the history that snapshot read or was offered to the handler's channel |
| Stream.ChannelProtocol | ops/backend/scheduler/scheduler.go:421-445 | No channel is closed twice or sent on after closing; Done is the last envelope offered; a subscriber beside an active job is offered Done before its channel closes |
| Stream.SequenceNumbers | ops/backend/scheduler/scheduler.go:382-435 | A subscriber reads strictly increasing numbers, was offered consecutive ones, and misses one exactly when its 256 slots were full at that send |
| Fleet.AllRuns | ops/backend/scheduler/scheduler.go:162-248 | In every run of any number of jobs, subscribers and cancels: the list names every indexed job once, only indexed jobs have subscribers, active jobs stay indexed, and every job is in a state of its own stream system |
| LoadGen.EveryIndexOnce | ops/executor/scenario.go:27-195 | At return every index has exactly one result, and a result is a drop exactly when its tick found the queue full |
| LoadGen.Terminates | ops/executor/scenario.go:27-195 | The length of any execution is bounded by the initial work plus five steps for each tick |
| LoadGen.NoDeadlock | ops/executor/scenario.go:27-195 | Until a scenario returns, some step other than a clock tick is enabled |
| LoadGen.ClosedScenario | ops/executor/scenario.go:27-95 | The closed scenario returns each of 0..Requests-1 executed exactly once if and only if it has a worker or nothing to do |
| LoadGen.OpenScenario | ops/executor/scenario.go:103-195 | The open scenario returns one result per tick: accepted ticks executed, the others dropped, no index twice |
| JobLog.LogConservation | ops/backend/scheduler/scheduler.go:394-414 | With successful writes and a clock that does not go back, the hourly files in archivedHours order followed by the buffer are exactly everything appended |
| Schedulers.Reopen | ops/backend/scheduler/scheduler.go:501-584 | A sound scheduler ends and a new one loads the directory: every finished job is there again with its record, buffer and archive index, nothing is running, and the new scheduler is sound |
| Schedulers.FinishAndReopen | ops/backend/scheduler/scheduler.go:333-366 | A job that finishes and is then loaded by a new process has the record it finished with and prints the same log text |
| ExecutorTrace.ClosedChannelTrace | ops/backend/executor/executor.go:73-172 | In every execution a closed event channel carried Started, then an interleaving of the two output streams each in its own order, then exactly one terminal event; an internal task's output is delivered in full |
| LiveOutput.ScriptCarriesTrace | ops/backend/scheduler/scheduler.go:282-366 | For every trace the script is the prologue, then for each line in its order the tagged append followed by its message, with the point just before when the line parses as a report, and nothing else, then the epilogue of the last event, with an error message before Done when there is an error |
| SampleStores.QueryExactIff | ops/backend/store/sample_store.go:75-102 | Query returns exactly the appended samples of every range if and only if each hour of absolute time has one file of its own |
| SampleStores.DownsampledAnswer | ops/backend/store/sample_store.go:75-102 | Where hours and files correspond, a query with a step answers, after any history, with appended samples of the range in time order, one at or after every appended sample of the range by less than the step |
| Retention.QueryAfterRun | ops/backend/store/sample_store.go:48-118 | In every run of appends and cleanups, a query over days no cleanup had reached returns what it would have returned without cleanups; where hours and files correspond, exactly the appended samples of the range |
| PerfMerge.MergeCorrectExactlyOnSorted | ops/backend/scheduler/perf_merge.go:53-96 | The walk picks the brute-force nearest sample, the earlier side winning ties, for all sorted monitors if and only if the progress points are in time order |
| Downsampling.BucketsMeaning | ops/backend/store/sample_store.go:172-193 | The output is a subsequence ending in the last sample, and every sample has an output at or after it by less than a step |
| RedisLock.MutualExclusion | pkg/base/redisx/redis.go:54-90 | In every run at most one client has an unexpired, unreleased lock on a key |
| RedisLock.UnlockHurtsNobody | pkg/base/redisx/redis.go:82-88 | An unlock, however late, takes the lock from nobody but its caller |
| Snowflake.HostnamesCollide | pkg/base/snowflakex/snowflake.go:15-56 | Two configured nodes collide if and only if their cfgNode values agree modulo 32 and so does a 5-bit fold of the low five bits of their hostnames' bytes |
| Snowflake.OneByteApart | pkg/base/snowflakex/snowflake.go:40-56 | Hostnames that differ in one byte collide exactly when that byte agrees in its low five bits under a positive cfgNode, and never without one |
| OrderNumber.OrderNumbers | pkg/base/eventx/seckill_purchase.go:44-49 | An order number is SCK and the first 29 digits of the digest in capitals, and two purchases share one exactly when those digits agree |
| LoadSummary.ClosedRunCounts | ops/executor/scenario.go:27-95 | Success and NetworkErrors of a closed run count its requests by what they got back, whatever the interleaving |
| LoadSummary.OpenRunCounts | ops/executor/scenario.go:103-195 | ... and those of an open run the ticks that were not dropped |
| SummaryMeaning.SummaryQuantiles | ops/executor/report.go:97-101 | P50, P95 and P99 are the results' latencies of rank floor((n-1)p) at 0.50, 0.95 and 0.99 |
| SummaryMeaning.SummaryCounts | ops/executor/report.go:39-106 | Each counter is the number of results whose fields say so: a success is answered with 200 and OK and not a degraded track, a drop is no network error |
| Report.TalliesSum | ops/executor/report.go:39-106 | HTTP and code counts each sum to Total, error kinds to NetworkErrors + LocalDrops, and Success + NetworkErrors + LocalDrops is at most Total |
| JobScript.TraceGivesShape | ops/backend/scheduler/scheduler.go:282-366 | Every executor trace, folded through the event handlers, gives a script of the shape the stream theorems need: one terminal status, each tagged append next to its message, then Done and the close at the end |
| Stream.HistoryComplete | ops/backend/scheduler/scheduler.go:394-414 | While a job is indexed its log holds every line appended so far, tagged or not, each once and in order |
| ExecutorTrace.PipesConserved | ops/backend/executor/executor.go:192-202 | What a reader has sent and what its pipe still holds always make up the process's output |
| ExecutorTrace.StreamsOriginalWhenUnlocked | ops/backend/executor/executor.go:130-172 | Over any number of internal tasks, stdout and stderr are the originals whenever the mutex is free, and otherwise belong to its owner |
| ExecutorProgress.SomeRunMoves | ops/backend/executor/executor.go:99-172 | No deadlock: while some run has not closed its channel, some run can move, even with others waiting for the mutex |
| ExecutorProgress.ExecutionsEnd | ops/backend/executor/executor.go:99-172 | Given finite output every execution of any number of runs is finite |
| JobScript.StartedJobStatuses | ops/backend/scheduler/scheduler.go:282-366 | A started job's status goes to Running and then to the terminal status its last event calls for, and nowhere else |
| JobScript.RefusalGivesShape | ops/backend/scheduler/scheduler.go:173-178 | A task the executor refuses to start goes through a script of the same shape |
| Stream.ReachableInv | ops/backend/scheduler/scheduler.go:225-248 | The invariant of owner, registry, channels and log holds in every reachable state of a job's stream system |
| Stream.TerminalStatusStays | ops/backend/scheduler/scheduler.go:333-360 | In every interleaving a terminal status is never left, and a finished owner leaves the one its script sets |
| Stream.OrphansComeFromTrims | ops/backend/scheduler/scheduler.go:462-480 | Channels are dropped unclosed exactly by trims that meet a registered subscriber |
| Stream.OwnerProgress | ops/backend/scheduler/scheduler.go:282-366 | The owner never blocks: until its script ends one of its own steps is enabled |
| Stream.OwnerTerminates | ops/backend/scheduler/scheduler.go:282-445 | Every step of the owner decreases a measure that nobody else's steps raise |
| Stream.HandlerProgress | ops/backend/api/task_handler.go:129-147 | After the owner is done, a handler can move by itself until it has cancelled, except when stuck on an empty open channel |
| Stream.HandlerTerminates | ops/backend/api/task_handler.go:129-147 | ... and does so only finitely often |
| Stream.LeavesLoop | ops/backend/api/task_handler.go:129-147 | A handler leaves the receive loop with everything its channel accepted, after the close, unless its client leaves, which it can at any time |
| Stream.CancelForGood | ops/backend/scheduler/scheduler.go:239-248 | A cancelled handler is no longer registered and no publication captures its channel again; the cancel touches no other handler |
| StreamWitness.TrimAfterCloseStrandsHandler | ops/backend/api/task_handler.go:123-127 | A concrete run without a trim between terminal status and close that leaves a late subscriber waiting for ever |
| StreamWitness.TrimBeforeCloseStrandsHandler | ops/backend/scheduler/scheduler.go:474-478 | A concrete run in which a trim before the close strands a handler that was already waiting |
| Fleet.AllRunsTerminateStreams | ops/backend/api/task_handler.go:99-147 | The stream theorem for every job of such a run |
| FleetStreams.JobRun | ops/backend/scheduler/scheduler.go:162-248 | What a run of the fleet does to one job is a run of that job's own stream system, its trims being those of the StartJobs that removed it |
| Fleet.StartIndex | ops/backend/scheduler/scheduler.go:167-171 | The index a StartJob leaves is the one trimming computes from the extended index |
| Fleet.StartJobEffect | ops/backend/scheduler/scheduler.go:167-171 | A StartJob indexes the new job as queued, changes no active job, and removes only a prefix of the list |
| Fleet.StartJobStopsTrimming | ops/backend/scheduler/scheduler.go:462-480 | After a StartJob the list is within its limit or an active job is at its head |
| FleetRestart.NewSchedulerStartsFleet | ops/backend/scheduler/scheduler.go:108-125 | The index a restart builds is that of an initial fleet, from which the fleet's runs start |
| FleetRestart.AnyJobStarts | ops/backend/scheduler/scheduler.go:140-181 | A job under a new id can be started with the script of any trace of the executor, or of its refusal |
| JobIndex.TrimmedMeaning | ops/backend/scheduler/scheduler.go:462-480 | Trimming removes a prefix of finished jobs, each while the list was over its limit, keeps list and map in step, and stops at the limit or at an active job |
| JobIndex.TrimKeepsActive | ops/backend/scheduler/scheduler.go:473-475 | A queued or running job keeps its place in map and list |
| JobLog.LogAccounting | ops/backend/scheduler/scheduler.go:394-414 | For every run: index and files agree, the buffer is within its bound, and archived, buffered and lost bytes add up to what was appended; only failed writes lose bytes |
| JobLog.AppendStep | ops/backend/scheduler/scheduler.go:394-414 | One append keeps the index in step with the files and the buffer in its bound, and adds exactly the terminated line to the history when the write succeeds and the clock has not gone back |
| JobLog.ArchiveChunk | ops/backend/scheduler/scheduler.go:55-65 | Archiving a chunk keeps hours sorted, paths and byte total right, and puts the chunk at the end of the archive when its hour is not before the archive |
| JobLog.AppendExact | ops/backend/scheduler/scheduler.go:35-53 | One append to the byte: the line gets a newline unless it has one, the buffer keeps the last maxLogSize bytes, and the rest is appended to the file of the hour if that write succeeds |
| JobLog.LogTextMeaning | ops/backend/scheduler/scheduler.go:67-80 | The text is the buffer, after a line with the size of the archive and the path of its latest file once there is one |
| JobLog.PathsDiffer | ops/backend/scheduler/scheduler.go:482-499 | The file of an hour is named by its ten digits, so different hours have different files |
| JobTable.HourlyFiles | ops/backend/scheduler/scheduler.go:482-499 | No two jobs or hours share a file |
| JobLog.BackwardClockReorders | ops/backend/scheduler/scheduler.go:55-65 | A clock that goes back an hour puts the later chunk first |
| Decimal.PaddedOrder | ops/backend/scheduler/scheduler.go:62-63 | Zero-padded hour keys sort as strings the way the hours they spell sort as numbers |
| Decimal.PaddedReadsBack | ops/backend/scheduler/scheduler.go:482-483 | So does a padded one that fits its width |
| Decimal.RenderReadsBack | pkg/base/eventx/seckill_purchase.go:45 | A rendered number reads back as itself, without leading zeros |
| Restart.RestartRoundTrip | ops/backend/scheduler/scheduler.go:501-578 | The record always comes back; the log state does exactly when the buffer could overwrite an older final.log or there was none |
| Restart.FinishedJobRoundTrip | ops/backend/scheduler/scheduler.go:501-578 | Every job that logged a line comes back with its log text, archive index and files, whatever its directory held |
| Restart.ListingUnique | ops/backend/scheduler/scheduler.go:558-559 | A directory has one sorted listing |
| Restart.RestoreJob | ops/backend/scheduler/scheduler.go:555-576 | A restored record has the persisted detail, the log its directory holds, and numbers restarting at 0 |
| Restart.LoadSorted | ops/backend/scheduler/scheduler.go:529-547 | The records found are exactly those of the readable meta.json files, in creation order |
| Restart.KeptIsLoaded | ops/backend/scheduler/scheduler.go:549-554 | Of these, one per id is kept, none invented and no id missed, and the order stays |
| Restart.KeptOldest | ops/backend/scheduler/scheduler.go:549-554 | Of several records with one id, the oldest is restored |
| JobTable.FinishedComesBack | ops/backend/scheduler/scheduler.go:549-580 | A finished record of a sound table is among the restored ones, with the same detail and log state |
| JobTable.LoadedTable | ops/backend/scheduler/scheduler.go:549-580 | What is loaded from a directory of finished jobs is in step and sound, and all of it is terminal |
| Schedulers.Scheduler.New | ops/backend/scheduler/scheduler.go:108-125 | Whatever is on disk, one job per persisted id is restored, in creation order; a directory of finished jobs gives a sound scheduler with exactly those records, all terminal |
| Schedulers.Scheduler.LoadPersistedJobs | ops/backend/scheduler/scheduler.go:519-584 | A restart restores one job per persisted id, without duplicates, sorted by creation, each with the log its directory holds |
| Schedulers.Scheduler.Finish | ops/backend/scheduler/scheduler.go:333-366 | From a sound scheduler and with its writes served: the job's record is final and carries the report over its enriched series, its directory agrees with it, the directory holds finished jobs only, all its subscribers' channels are closed, and the scheduler is sound again |
| Schedulers.Scheduler.SetFinished | ops/backend/scheduler/scheduler.go:333-357 | Status, exit code, end and, when there are progress samples, the report over the enriched series are set; the record's other fields stay |
| Schedulers.Scheduler.Register | ops/backend/scheduler/scheduler.go:167-171 | StartJob's critical section: the new job is indexed; index, records and subscribers are those of the extended index after trimming; the scheduler stays sound |
| Schedulers.Scheduler.TrimJobsLocked | ops/backend/scheduler/scheduler.go:462-480 | The loop leaves the index TrimmedMeaning is about, and drops exactly the same jobs from records and subscribers |
| Schedulers.Scheduler.OnStarted | ops/backend/scheduler/scheduler.go:297-308 | The job is running from the given time, its two lines are appended, every subscriber is offered the state under the next number, and the scheduler stays sound |
| Schedulers.Scheduler.OnLogLine | ops/backend/scheduler/scheduler.go:310-331 | A line goes to the job's log, a progress line also to its enriched series; every subscriber is offered the point, if any, and then the line, under consecutive numbers; the scheduler stays sound |
| Schedulers.Scheduler.AppendJobLog | ops/backend/scheduler/scheduler.go:394-419 | The job's log and files change as the log model says, a line with a source is then offered to every subscriber under the next number, and the scheduler stays sound while the job has not ended |
| Schedulers.Scheduler.PersistJobMeta | ops/backend/scheduler/scheduler.go:501-517 | The directory gets the record, and the buffer as final.log unless it is empty; each write that fails leaves its file as it was |
| Schedulers.Scheduler.Dismiss | ops/backend/scheduler/scheduler.go:342-365 | Subscribers are offered the error, if any, then Done, under consecutive numbers, and their channels are closed |
| Schedulers.Scheduler.Subscribe | ops/backend/scheduler/scheduler.go:225-239 | A known job gets a fresh, empty, open channel, registered under its id beside the job's other subscribers, and nothing else changes; an unknown job changes nothing; the scheduler stays sound |
| Schedulers.Scheduler.Cancel | ops/backend/scheduler/scheduler.go:239-248 | Cancelling removes the one subscriber and an entry left empty; the channel stays open and the scheduler sound |
| Schedulers.Scheduler.Publish | ops/backend/scheduler/scheduler.go:421-435 | Every registered subscriber of the job is offered the event, and no other channel changes |
| Schedulers.Scheduler.PublishNext | ops/backend/scheduler/scheduler.go:382-435 | Subscribers are offered the event under the job's next number |
| Schedulers.Scheduler.CloseJobSubs | ops/backend/scheduler/scheduler.go:437-445 | The job's channels are closed, each once, and every other registered channel stays open |
| LoadGen.NoPanic | ops/executor/scenario.go:27-195 | No interleaving sends on, or closes, a closed channel |
| LoadGen.OpenAdmission | ops/executor/scenario.go:103-195 | At most 2*Concurrency accepted jobs are queued or running, and a tick is dropped exactly when Concurrency jobs are queued |
| LoadGen.TokensBalanced | ops/executor/scenario.go:213 | With T tokens each is used floor(R/T) times, or once more for the first R mod T |
| LoadSummary.OpenRunSummary | ops/executor/scenario.go:103-235 | An open run's Total is the number of ticks, LocalDrops the ticks that found the queue full, and the rest is executed requests |
| LoadSummary.ClosedRunSummary | ops/executor/scenario.go:27-95 | A closed run's Total is the number of requests, and nothing is dropped |
| LoadWorkers.FullConcurrency | ops/executor/scenario.go:69-88 | A run can have all its workers busy at once: Concurrency of them, in a closed run at most one per request |
| LoadWorkers.WorkersFixed | ops/executor/scenario.go:69-88 | That is the number of workers in every state |
| LoadWorkers.ClosedNeverBlocks | ops/executor/scenario.go:27-95 | The channels of a closed run hold all its requests, so neither producer nor workers wait for room |
| LoadWorkers.OpenResultRoom | ops/executor/scenario.go:103-125 | The results of an open run wait in 4*Concurrency slots, at least 128 and at most 8192 |
| LoadWorkers.OldestFirst | ops/executor/scenario.go:75-88 | A worker that takes a job gets the oldest one queued |
| LoadWorkers.ResultsInOrder | ops/executor/scenario.go:33-40 | Results are collected in the order they were offered, and none is taken back |
| Report.LatencyOrder | ops/executor/report.go:96-101 | P50 <= P95 <= P99 <= Max, and the mean lies between the least latency and Max |
| SummaryMeaning.SummaryOrders | ops/executor/report.go:88-96 | UniqueOrders is the number of different trimmed order numbers on results answered with 200 and OK |
| SummaryMeaning.SummaryStats | ops/executor/report.go:61-82 | HTTP, code and error statistics count the results by status, by code with a blank one as <empty>, and by kind of error |
| SummaryMeaning.SummaryMax | ops/executor/report.go:58-60 | Max is the greatest latency, or 0 when none is positive |
| SummaryMeaning.SummaryMean | ops/executor/report.go:98 | Mean is the total latency over the number of results, cut off toward zero |
| SummaryMeaning.ReplyOutcomes | ops/executor/scenario.go:199-235 | What each kind of reply, and a dropped tick, adds to the counters |
| SummaryMeaning.VerdictReasons | ops/executor/report.go:350-369 | Each verdict is given exactly when its check is the first to fail |
| Report.UniqueOrdersBound | ops/executor/report.go:88-96 | For the results the scenarios record, UniqueOrders <= Success |
| Report.DegradedOrderCounts | ops/executor/report.go:88-96 | For other results it can fail: a degraded track with an order number counts as an order only |
| Report.IdempotencyVerdict | ops/executor/report.go:350-369 | For any limits, the idempotency scenario passes exactly when network errors are within theirs, all orders are one, and none was placed if the success limit is 0 |
| Report.StressVerdict | ops/executor/report.go:350-369 | The other scenarios pass exactly when network errors and successes are within their limits |
| Report.StatsCount | ops/executor/report.go:61-70 | Each statistics entry is the number of results with its key |
| Report.OutcomesCount | ops/executor/report.go:67-95 | Each counter is the number of results of its kind |
| Report.Summarize | ops/executor/report.go:39-106 | The loop computes the statistics, counters and percentiles of the results, the latencies being sorted |
| Latency.PercentileIsOrderStatistic | ops/executor/report.go:108-120 | More than floor((n-1)p) of the latencies are at most the percentile, and no more than that are below it; p <= 0 gives the least and p >= 1 the greatest |
| Latency.PercentilesOrdered | ops/executor/report.go:108-120 | A percentile grows with its rank |
| Latency.MeanBetween | ops/executor/report.go:98 | A truncated mean lies between any bounds of the values |
| Latency.GoDivMeaning | ops/executor/report.go:98 | The mean's division is the exact quotient cut off toward zero |
| SampleStores.QueryLaw | ops/backend/store/sample_store.go:75-102 | In any time zone the result is sorted and holds each sample of the range once per append and per visited hour with its file |
| SampleStores.QueryResultMeaning | ops/backend/store/sample_store.go:98-100 | With a step, the result is a subsequence of the raw one that ends in its last sample, covers each by less than a step and is bounded by the span; without, the raw one |
| SampleStores.FixedOffsetHourly | ops/backend/store/sample_store.go:144-146 | A fixed offset from UTC satisfies that condition exactly when it is a whole number of hours |
| SampleStores.MissedWithinHour | ops/backend/store/sample_store.go:79-84 | Otherwise a sample is missed ... |
| SampleStores.DuplicatedAcrossHours | ops/backend/store/sample_store.go:79-84 | ... or a file is read twice |
| SampleStores.QueryInRange | ops/backend/store/sample_store.go:148-170 | Whatever is on disk, the result is in time order and within the range |
| SampleStores.AutomaticAnswerBound | ops/backend/api/sample_handler.go:139-154 | A range over 10 minutes and up to 7 days is answered with at most 2017 samples |
| Retention.CleanupKeepsQuery | ops/backend/store/sample_store.go:104-118 | A cleanup changes no query whose visited hours lie on days at or after its cutoff |
| Retention.RunAll | ops/backend/store/sample_store.go:48-118 | A run of Append and Cleanup calls builds the disk that theorem is about |
| Retention.AppendAfterRemovalIsLost | ops/backend/store/sample_store.go:48-118 | The condition is needed: a cleanup that removes the open file loses what is then appended to its hour |
| Calendar.ExpiredMeansEarlier | ops/backend/store/sample_store.go:104-118 | Day directories compare by name as their days do: the test never takes a day at or after the cutoff, and in the years 0 to 9999 takes exactly those before it |
| Calendar.DayNamesDiffer | ops/backend/store/sample_store.go:144-146 | Different days of those years have different directories |
| Calendar.DateTextReadsBack | ops/backend/store/sample_store.go:144-146 | A day's name spells its year, month and day |
| Calendar.YearLength | ops/backend/store/sample_store.go:104-106 | Months make years of 365 days, or 366 in leap years |
| SampleStores.RetainedDays | ops/backend/store/sample_store.go:104-118 | Nothing of a day at or after the cutoff goes; in the years 0 to 9999 everything before it does |
| SampleStores.SampleStore.Append | ops/backend/store/sample_store.go:48-73 | The sample is the last line of the file of its hour, unless opening or writing failed or the file was removed under the open handle; the handle follows the hour |
| SampleStores.SampleStore.Query | ops/backend/store/sample_store.go:75-102 | Over the files that can be read: without a step the raw samples of the visited hours, with one a subsequence of them that covers every sample |
| SampleStores.SampleStore.Cleanup | ops/backend/store/sample_store.go:104-118 | The loop over the day directories, comparing names, leaves the specified files; those of days at or after the cutoff keep their contents |
| SampleStores.AppendAll | ops/backend/store/sample_store.go:48-73 | A run of appends builds the disk the query theorems are about |
| Downsampling.LengthBound | ops/backend/store/sample_store.go:172-193 | The output has at most (last-first)/step + 1 samples |
| Downsampling.AutoStepBound | ops/backend/api/sample_handler.go:139-154 | With the automatic step that is at most 2017 samples |
| Downsampling.AutoStepGrows | ops/backend/api/sample_handler.go:139-154 | The step grows with the range, is at most a 240th of it, and changes just above 10 and 30 minutes and 1, 5 and 24 hours |
| Downsampling.Downsample | ops/backend/store/sample_store.go:172-193 | The loop computes the greedy bucketing |
| PerfMerge.MergePerfProgressSamples | ops/backend/scheduler/perf_merge.go:53-83 | The two-pointer walk computes the specified merge |
| PerfMerge.MergeMeaning | ops/backend/scheduler/perf_merge.go:53-106 | For series in time order each point takes each metric it lacks from a sample at minimum distance, a later one only when no earlier one is as close |
| PerfMerge.AttachFills | ops/backend/scheduler/perf_merge.go:98-106 | Metric by metric, a value that is set stays and a missing one is the sample's |
| PerfMerge.BruteNearestMeaning | ops/backend/scheduler/perf_merge.go:85-96 | The brute-force pick is at minimum distance and a later sample wins only when no earlier one is as close |
| PerfMerge.MergePreserves | ops/backend/scheduler/perf_merge.go:98-106 | Length, order and all other fields stay, and a metric already set is never overwritten |
| PerfMerge.MergeIdempotent | ops/backend/scheduler/perf_merge.go:53-106 | Merging again with the same monitors changes nothing |
| Enrichment.EnrichedFromNearest | ops/backend/scheduler/perf_merge.go:34-51 | After any history of appends, with a window from 5 s before the first point, not before 0, to 1.5 s after the last: without a sample in it the series stays, otherwise each point takes what it lacks from the nearest one |
| Enrichment.EnrichedPointFromNearest | ops/backend/scheduler/perf_merge.go:15-32 | The same for one live point; a point without a time stays as it is |
| Enrichment.EnrichPerfProgressSeries | ops/backend/scheduler/perf_merge.go:34-51 | The series is merged with the samples of its window, or left alone when there are none |
| Enrichment.EnrichPerfProgress | ops/backend/scheduler/perf_merge.go:15-32 | A live progress point is enriched as the series made of it alone |
| Snowflake.ConfiguredNodesCollide | pkg/base/snowflakex/snowflake.go:41-44 | Two configured nodes collide exactly when their cfgNode values agree modulo 32 and their hostname hashes do |
| Snowflake.AlikeHostnamesCollide | pkg/base/snowflakex/snowflake.go:15-18 | So, under one positive cfgNode, hostnames that agree byte by byte modulo 32 always collide ... |
| Snowflake.LetterCaseCollides | pkg/base/snowflakex/snowflake.go:15-18 | ... as "web" and "WEB" do |
| Snowflake.ThirtyThreeCollide | pkg/base/snowflakex/snowflake.go:15-18 | Of any 33 hostnames under one positive cfgNode two collide |
| Snowflake.NodeFromEnvironment | pkg/base/snowflakex/snowflake.go:26-30 | A valid SNOWFLAKE_NODE decides alone, modulo 1024 |
| Snowflake.NodeFromConfiguration | pkg/base/snowflakex/snowflake.go:41-44 | Otherwise the id's upper five bits are the low ones of a positive cfgNode and its lower five those of the hostname's hash |
| Snowflake.NodeFromHostname | pkg/base/snowflakex/snowflake.go:33-45 | Without a positive cfgNode they are ten bits of the hash; without a hostname cfgNode modulo 1024, or 1 |
| Snowflake.NodeID | pkg/base/snowflakex/snowflake.go:24-46 | Node ids are in 0..1023 |
| Snowflake.KnownHashes | pkg/base/snowflakex/snowflake.go:48-56 | The published 32-bit FNV-1a hashes of no bytes, of a and of foobar |
| Snowflake.FnvHash | pkg/base/snowflakex/snowflake.go:49-56 | The loop computes the 32-bit FNV-1a hash |
| OrderNumber.PreImageInjective | pkg/base/eventx/seckill_purchase.go:44-47 | The hashed text determines user, activity, item and trimmed key, and is determined by them |
| OrderNumber.PreImageText | pkg/base/eventx/seckill_purchase.go:45 | The hashed text is user, activity, item and trimmed key with colons between them |
| OrderNumber.TrimSpaceMeaning | pkg/base/eventx/seckill_purchase.go:45 | Trimming removes the surrounding space, all of it and nothing else |
| OrderNumber.AsciiSpaces | pkg/base/eventx/seckill_purchase.go:45 | Of ASCII, the white space that is trimmed is the blank and tab to carriage return |
| OrderNumber.TrimSpaceIdempotent | pkg/base/eventx/seckill_purchase.go:45 | Trimming removes all surrounding space at once |
| RedisLock.LockGranted | pkg/base/redisx/redis.go:67-80 | TryLock succeeds exactly when no client holds the key, and then for the given time, or 5 s when that is not positive |
| RedisLock.ReleaseFrees | pkg/base/redisx/redis.go:54-90 | A client that knows of its lock can release it, and the next one then gets the key |
| RedisLock.LockIsKept | pkg/base/redisx/redis.go:63-90 | A lock is kept until its time is up or its own client releases it |
| RedisLock.OverlapAfterExpiry | pkg/base/redisx/redis.go:63-90 | A client that outlives its TTL still believes it has the lock when the next one gets it |
| RedisLock.Redis.TryLock | pkg/base/redisx/redis.go:63-83 | The key is taken exactly when it is not live and SETNX is served, for the given or default time; each error case is told apart, the nil client first |
| RedisLock.Redis.RunUnlock | pkg/base/redisx/redis.go:16-21 | The script deletes the key only while it is live and holds the caller's token |
| JobRecords.JobRecord.AppendLogWithTrim | ops/backend/scheduler/scheduler.go:35-53 | The overflow followed by the buffer is the old buffer and the terminated line; the overflow is exactly what exceeds the bound |
| JobRecords.JobRecord.AddArchive | ops/backend/scheduler/scheduler.go:55-65 | The record changes as the archive step of the log model says |
| JobRecords.JobRecord.LogText | ops/backend/scheduler/scheduler.go:67-80 | The text is the remaining buffer, preceded by the byte total and the latest file once anything was archived |
| JobRecords.JobRecord.FinalizePerfReport | ops/backend/scheduler/scheduler.go:447-460 | A job with progress samples gets the report over its enriched series; a job without keeps its record |
| JobRecords.JobRecord.NextSeqLocked | ops/backend/scheduler/scheduler.go:82-85 | Numbers count up by one |
| Subscribers.Channel.TrySend | ops/backend/scheduler/scheduler.go:430-434 | An open channel takes the event unless its 256 slots are full |
| Subscribers.CancelUndoesSubscribe | ops/backend/scheduler/scheduler.go:225-248 | Cancelling takes back exactly what Subscribe added |
| Subscribers.CancelTwice | ops/backend/scheduler/scheduler.go:239-248 | Cancelling twice is cancelling once |
| JobIndex.RegisteredWellFormed | ops/backend/scheduler/scheduler.go:167-171 | Indexing a new job keeps the list free of duplicates and equal to the keys of the map |
| Subscribers.WithMeaning | ops/backend/scheduler/scheduler.go:236 | The registration adds one channel in its place |

## Left out

- The seckill purchase itself, RPC services, generated code, front end, command-line tools, Docker, etcd, Prometheus, MySQL and Kafka clients: plumbing over code that is not part of this model.
- JSON and SSE encoding, HTTP status handling and parsing of load-generator lines: encoding is the identity on records, and which lines parse is a parameter.
- The text of log lines (timestamps, process ids) and the performance report's summary fields: a log line is any string, and a report is a heading, which stands for all fields but its series, and the series.
- The payload of events: a text, which is empty for Done, whose status, exit code and report are those of the record.
- StartJob as a method: its checks and its goroutine are the scripts of JobScript.dfy; its critical section is Schedulers.Scheduler.Register.
- Schedulers.Scheduler.Finish: when a write of persistJobMeta fails, only list, map and channels are stated to stay sound.
- Schedulers.Scheduler.PersistJobMeta: a failing write leaves its file as it was; a truncated meta.json or final.log is not modelled.
- Schedulers methods run alone; their interleavings are those of Stream.dfy and Fleet.dfy, where a step is one critical section.
- JobLog.Append: an archive write succeeds or leaves the file as it was; a partial write is not modelled, and a character stands for a byte.
- Restart of directories changed by hand, unreadable files in them and hour keys outside ten digits.
- Back-pressure of the executor's 256-slot event channel, liveness of child processes beyond finite output, and lines over the scanner's limit, which the model only lets end a reader early.
- Progress tickers and heartbeats: they only read snapshots.
- 64-bit overflow of byte counts, times, latency sums and sequence numbers.
- Floating point: percentile ranks and metrics are reals; RPS and rates are not modelled.
- classifyNetworkError's table of message patterns and ErrorSamples: the label of an error is an uninterpreted function.
- The rest of assertScenario's messages: the verdict is a constructor.
- The order of samples with equal timestamps after sort.Slice, and of details created at the same instant.
- SampleStores.SampleStore.Append: a failing write leaves the file as it was; a partial line is not modelled.
- SampleStores.SampleStore.Cleanup: removing a directory succeeds; directories whose names are not days are not modelled.
- SampleStores.AppendAll: the query theorems take opens, writes and reads to succeed and no Append after Close.
- The digest of an order number: SHA-1 is any function with 40 hexadecimal digits.
- The parse of SNOWFLAKE_NODE: the parsed value, if any, is an input.
- RedisLock: the client's clock, fail-over of the server and retries of the Redis client; expiry follows one server clock.
