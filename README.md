# Asynchronous job engine: a Dafny model of its core

The job engine accepts named jobs with an optional payload. Each job runs under one of
three execution modes:

- SEQUENTIAL runs the job in the caller's thread;
- THREAD_POOL hands it to a bounded pool;
- ASYNC starts it on a virtual thread.

Every job does the same work. It counts the primes up to a randomly drawn limit, which is
CPU-bound. It then makes a simulated I/O call, which may fail by chaos injection, time
out or be interrupted, and which is retried before a fallback gives up. Each execution
moves the job through the PENDING, RUNNING, COMPLETED or FAILED lifecycle and records
timers, counters and an active gauge per mode. The job service keeps every submitted job
and every result in memory. It answers lookups by id, status and mode, and it submits
batches per mode or for all modes. The HTTP layer's response records convert jobs,
results and metrics for output.

The model covers these parts, one module each:

- the job lifecycle (`JobStatuses`) and the job entity (`Jobs.Job`, a class, since its
  status and timestamps are set in place);
- the immutable result (`JobResults`) and the configuration records with their checked
  constructors and defaults (`Config`);
- the prime-counting CPU simulator (`CpuSimulator`, imperative loops proved against a
  prime-count specification);
- the I/O simulator with chaos, timeout, interruption, retry and fallback (`IoSimulator`);
- the metrics service (`Metrics.MetricsService`, a class over a map of per-mode meters);
- the task body shared by the executors (`JobTasks.RunTask`);
- the three executors (`SequentialExecutor`, `ThreadPoolExecutor`, `AsyncExecutor`);
- the job service (`JobServices.JobService`);
- the three response records (`JobResponses`, `MetricsResponses`, `BatchSubmitRequests`).

Everything the Java code reads from the outside world is a parameter:

- random draws (`RandomDraws.NextInt`, `IoSimulator.IoDraws`);
- clock readings (`JobTasks.Clock`), with no order imposed on them: `Instant.now()` reads
  the wall clock, which can be set back, so a measured duration can be negative. Micrometer's
  timer ignores a negative duration while the completed and failed counters still count the
  job (`Metrics.Sampled`, `Metrics.BalancedIffNoneDropped`);
- the current thread's identity (`JobResults.ThreadInfo`);
- the UUID of a new job (`JobServices.Submission`).

Java's `null` is `Option`. A thrown exception is the `Err` case of `Result` over
`Exceptions.Exception`. A pool or async job whose future has not completed sits in the
service's `pending` sequence. `JobService.CompleteInFlight` runs the callback that stores
its result.

## Model

All source paths are under `src/main/java/com/jobengine/`.

| member | source | states |
|---|---|---|
| ExecutionModes.AllModesEnumerates | src/main/java/com/jobengine/model/ExecutionMode.java:35-50 | values() lists each mode exactly once, and mode names tell the modes apart |
| ExecutionModes.AllModesListed | src/main/java/com/jobengine/model/ExecutionMode.java:35-50 | every mode is among values(), so iterating values() visits all of them |
| JobStatuses.EdgesOfTheDiagram | src/main/java/com/jobengine/model/JobStatus.java:7-10 | terminal statuses have no outgoing edge, no edge re-enters PENDING or loops, and every edge advances one stage |
| JobStatuses.StageIncreasesAlongPath | src/main/java/com/jobengine/model/JobStatus.java:7-10 | along a lifecycle path the stage grows by exactly the number of steps taken |
| JobStatuses.NoStatusRevisited | src/main/java/com/jobengine/model/JobStatus.java:7-10 | the lifecycle is acyclic: no status occurs twice on a path |
| JobStatuses.LifecyclePathsEnumerated | src/main/java/com/jobengine/model/JobStatus.java:7-10 | the only lifecycle paths are PENDING, then RUNNING, then COMPLETED or FAILED, and their prefixes |
| Jobs.Job.constructor | src/main/java/com/jobengine/model/Job.java:39-46 | a new job keeps its identity fields, starts PENDING without timestamps, and its history is the one-step lifecycle path |
| Jobs.Job.SetStatus | src/main/java/com/jobengine/model/Job.java:68-70 | the status becomes the given one and the history records the move; nothing else changes |
| Jobs.Job.SetStartedAt | src/main/java/com/jobengine/model/Job.java:80-82 | the start time is set, and the status and history are untouched |
| Jobs.Job.SetCompletedAt | src/main/java/com/jobengine/model/Job.java:88-90 | the completion time is set, and the status and history are untouched |
| JobResults.Success | src/main/java/com/jobengine/model/JobResult.java:49-61 | a success result carries the output, no error, the job, the duration and the creating thread |
| JobResults.Failure | src/main/java/com/jobengine/model/JobResult.java:71-83 | a failure result carries the message, no output, the job, the duration and the creating thread |
| JobResults.ExactlyOneOfOutputAndError | src/main/java/com/jobengine/model/JobResult.java:49-83 | a result built from non-null text has exactly one of output and error message, matching its success flag |
| Exceptions.Exception.Message | src/main/java/com/jobengine/exception/JobEngineException.java:20-22 | every exception of the engine's own hierarchy has a non-null message |
| Config.NewThreadPoolConfig | src/main/java/com/jobengine/config/JobEngineProperties.java:83-87 | the record is built exactly when coreSize <= maxSize, and otherwise the constructor throws IllegalArgumentException with its message |
| Config.NewCpuSimulationConfig | src/main/java/com/jobengine/config/JobEngineProperties.java:62-66 | the record is built exactly when minPrimeLimit <= maxPrimeLimit, and otherwise the constructor throws IllegalArgumentException with its message |
| Config.NewIoSimulationConfig | src/main/java/com/jobengine/config/JobEngineProperties.java:117-121 | the record is built exactly when minLatencyMs <= maxLatencyMs, and otherwise the constructor throws IllegalArgumentException with its message |
| Config.DefaultThreadPool | src/main/java/com/jobengine/config/JobEngineProperties.java:28 | the default pool section (4, 16, 100, 60) passes its own constructor check |
| Config.DefaultAsync | src/main/java/com/jobengine/config/JobEngineProperties.java:29 | the default async section (300 seconds, virtual threads) satisfies the @Positive bound on its timeout (lines 96-99) |
| Config.DefaultCpuSimulation | src/main/java/com/jobengine/config/JobEngineProperties.java:30 | the default CPU section (enabled, 10000 to 100000) passes its own constructor check |
| Config.DefaultIoSimulation | src/main/java/com/jobengine/config/JobEngineProperties.java:31 | the default I/O section (50 to 500 ms, no chaos, 5000 ms timeout) passes its own constructor check and lies within its @Min(0) and @Max(1) bounds |
| Config.NewJobEngineProperties | src/main/java/com/jobengine/config/JobEngineProperties.java:26-32 | a null section is replaced by its default and a given section is kept |
| Config.PropertiesAreValid | src/main/java/com/jobengine/config/JobEngineProperties.java:26-32 | sections that passed their constructors, completed by defaults, give valid properties |
| RandomDraws.NextInt | src/main/java/com/jobengine/service/CPUSimulator.java:72 | a draw from nextInt(origin, bound) lies in the half-open range |
| RandomDraws.NextIntReachesEveryValue | src/main/java/com/jobengine/service/CPUSimulator.java:72 | every value of the range is produced by some draw |
| CpuSimulator.GenerateRandomLimit | src/main/java/com/jobengine/service/CPUSimulator.java:68-73 | the limit lies within [minPrimeLimit, maxPrimeLimit], and is the minimum when the range is one value |
| CpuSimulator.IsPrime | src/main/java/com/jobengine/service/CPUSimulator.java:121-129 | trial division by 2 and the odd numbers up to the square root answers exactly whether n is prime |
| CpuSimulator.CountPrimesUpTo | src/main/java/com/jobengine/service/CPUSimulator.java:91-111 | the loop returns the number of primes in [2, limit], or 0 when simulation is disabled |
| CpuSimulator.TrialDivisionDecides | src/main/java/com/jobengine/service/CPUSimulator.java:125-128 | no divisor below i with i * i > n means n is prime, which justifies stopping at the square root |
| CpuSimulator.CofactorIsSmall | src/main/java/com/jobengine/service/CPUSimulator.java:125 | a divisor at or above the square root has a cofactor below it |
| CpuSimulator.OddHasNoEvenDivisor | src/main/java/com/jobengine/service/CPUSimulator.java:124-125 | skipping even candidates after the parity test misses no divisor |
| CpuSimulator.TwoIsTheOnlyEvenPrime | src/main/java/com/jobengine/service/CPUSimulator.java:123-124 | 2 is prime and no other even number is, as the early returns assume |
| CpuSimulator.PrimeCountBelowTwo | src/main/java/com/jobengine/service/CPUSimulator.java:98-104 | a limit below 2 yields a count of 0 |
| CpuSimulator.PrimeCountMonotone | src/main/java/com/jobengine/service/CPUSimulator.java:100-104 | a larger limit never yields a smaller count |
| CpuSimulator.PrimeCountBound | src/main/java/com/jobengine/service/CPUSimulator.java:100-104 | the count is at most the number of candidates, limit - 1 |
| CpuSimulator.PrimeCountIsCardinality | src/main/java/com/jobengine/service/CPUSimulator.java:98-110 | the count is the size of the set of primes in [2, limit] |
| Decimal.NatToStringRoundTrip | src/main/java/com/jobengine/service/IOSimulator.java:109 | the decimal rendering used in string concatenation is a non-empty digit string without a leading zero that reads back as the number |
| Decimal.IntToStringInjective | src/main/java/com/jobengine/executor/SequentialJobExecutor.java:123 | two integers render to the same text exactly when they are equal |
| IoSimulator.CalculateLatency | src/main/java/com/jobengine/service/IOSimulator.java:117-122 | the latency lies within [minLatencyMs, maxLatencyMs], and is the minimum when the range is one value |
| IoSimulator.ChosenLatency | src/main/java/com/jobengine/service/IOSimulator.java:90-97 | a firing timeout draw selects timeoutLatencyMs, and otherwise the latency is from the configured range; under the @Min(0) bounds it is never negative |
| IoSimulator.SimulateWork | src/main/java/com/jobengine/service/IOSimulator.java:81-110 | for a configuration within its @Min(0) and @Max(1) bounds: chaos failure iff its draw fires, checked before sleeping; interruption gives the interrupted exception; otherwise the output names the payload and latency; every error is an IOSimulationException |
| IoSimulator.ChaosFailureByRate | src/main/java/com/jobengine/service/IOSimulator.java:85-88 | failureRate 0 never fails and failureRate 1 always fails |
| IoSimulator.OutputDeterminesLatency | src/main/java/com/jobengine/service/IOSimulator.java:109 | equal outputs for the same payload mean equal latencies |
| IoSimulator.SimulateWorkFallback | src/main/java/com/jobengine/service/IOSimulator.java:132-135 | the fallback always throws an IOSimulationException naming the last failure's message and keeping it as the cause |
| IoSimulator.Retried | src/main/java/com/jobengine/service/IOSimulator.java:80-81 | a success is the first attempt that succeeds, every earlier one having failed without an interruption; a failure is the fallback applied to the exception of the last attempt or of the first interrupted one, whichever comes first |
| IoSimulator.RetriedSucceedsIff | src/main/java/com/jobengine/service/IOSimulator.java:80-106 | the retried call succeeds exactly when some attempt succeeds with no interrupted attempt before it |
| IoSimulator.InterruptionIsFinal | src/main/java/com/jobengine/service/IOSimulator.java:102-106 | once an attempt is interrupted, with only failures before it, the call ends in the fallback "I/O operation failed after 3 retries: I/O simulation interrupted", because the re-set interrupt flag makes every later wait throw |
| Metrics.InitialIsAllFresh | src/main/java/com/jobengine/service/MetricsService.java:71-96 | initialisation registers every mode with a zero timer, zero counters and a zero gauge |
| Metrics.InitialIsBalanced | src/main/java/com/jobengine/service/MetricsService.java:71-96 | initially each mode's timer count equals completed plus failed |
| Metrics.Recorded | src/main/java/com/jobengine/service/MetricsService.java:112-123 | a recording adds one sample of the duration to the mode's timer unless the duration is negative, and bumps exactly one of its counters either way; other modes and the gauge are unchanged; counters never fall behind the timer, and the timer-equals-counters balance survives exactly when the duration is not negative |
| Metrics.Sampled | src/main/java/com/jobengine/service/MetricsService.java:113 | Timer.record keeps a non-negative duration as one more sample of it and ignores a negative one |
| Metrics.Shifted | src/main/java/com/jobengine/service/MetricsService.java:130-141 | the mode's gauge moves by the delta, and nothing else changes |
| Metrics.GaugeNetsToZero | src/main/java/com/jobengine/service/MetricsService.java:130-141 | an increment and a decrement around a recording leave only the recording's effect |
| Metrics.ReplayedCounts | src/main/java/com/jobengine/service/MetricsService.java:113-119 | after any sequence of recordings each mode's counters grew by its successes and failures, its timer count by the recordings with a non-negative duration, and successes plus failures are the kept plus the dropped samples |
| Metrics.BalancedIffNoneDropped | src/main/java/com/jobengine/service/MetricsService.java:71-123 | starting from the initial meters, a mode's timer count equals completed plus failed exactly when none of its recordings had a negative duration |
| Metrics.ReplayedAppend | src/main/java/com/jobengine/service/MetricsService.java:112-123 | replaying one more recording is one more recordJobCompletion call on the replayed meters |
| Metrics.StatsOf | src/main/java/com/jobengine/service/MetricsService.java:190-200 | reported statistics copy the meters; the average is total time over samples, or 0 without samples; completed + failed is at least the executions, and equal to them when the mode is balanced |
| Metrics.MetricsService.constructor | src/main/java/com/jobengine/service/MetricsService.java:71-96 | the service starts with the initial meters |
| Metrics.MetricsService.RecordJobCompletion | src/main/java/com/jobengine/service/MetricsService.java:112-123 | for any duration, negative ones included, the meters become Recorded of the old meters |
| Metrics.MetricsService.IncrementActive | src/main/java/com/jobengine/service/MetricsService.java:130-132 | the meters become the old ones with the mode's gauge one higher |
| Metrics.MetricsService.DecrementActive | src/main/java/com/jobengine/service/MetricsService.java:139-141 | the meters become the old ones with the mode's gauge one lower |
| Metrics.MetricsService.ResetMetrics | src/main/java/com/jobengine/service/MetricsService.java:150-180 | after the reset loop every mode is back to the initial meters |
| Metrics.MetricsService.GetStats | src/main/java/com/jobengine/service/MetricsService.java:187-204 | exactly one entry per mode name, each the mode's statistics; completed + failed is at least the executions, and equal to them for a balanced mode |
| JobTasks.RunFollowsLifecycle | src/main/java/com/jobengine/executor/SequentialJobExecutor.java:112-140 | a PENDING job that is set RUNNING and then to a terminal status has followed the lifecycle diagram |
| JobTasks.RunTask | src/main/java/com/jobengine/executor/SequentialJobExecutor.java:109-152 | for any clock readings, including a wall clock set back between them, the task's result is success with the I/O output or failure with the exception's message; the job ends RUNNING then terminal with both timestamps; one recording of the measured duration is added |
| JobTasks.InterruptedTaskFails | src/main/java/com/jobengine/executor/SequentialJobExecutor.java:112-140 | a task whose I/O call is interrupted after only chaos failures fails, with the fallback's interrupted message |
| SequentialExecutor.SequentialJobExecutor.Execute | src/main/java/com/jobengine/executor/SequentialJobExecutor.java:102-153 | null is refused with InvalidJobException before any change; otherwise the future is already completed with the task's result and the active count is back where it was |
| SequentialExecutor.SequentialJobExecutor.GetMode | src/main/java/com/jobengine/executor/SequentialJobExecutor.java:156-158 | the executor reports SEQUENTIAL |
| SequentialExecutor.SequentialJobExecutor.constructor | src/main/java/com/jobengine/executor/SequentialJobExecutor.java:86-99 | the executor keeps the given simulators' configurations and metrics service, and its active count starts at zero |
| SequentialExecutor.SequentialJobExecutor.GetActiveCount | src/main/java/com/jobengine/executor/SequentialJobExecutor.java:161-163 | the number of jobs inside execute; Execute puts it back after every run, so it reads zero between calls |
| ThreadPoolExecutor.ThreadPoolJobExecutor.Execute | src/main/java/com/jobengine/executor/ThreadPoolJobExecutor.java:129-143 | null is refused with InvalidJobException; otherwise the job is set PENDING and the future is scheduled for this job |
| ThreadPoolExecutor.ThreadPoolJobExecutor.constructor | src/main/java/com/jobengine/executor/ThreadPoolJobExecutor.java:118-126 | the executor keeps the given simulators' configurations and metrics service |
| ThreadPoolExecutor.ThreadPoolJobExecutor.ExecuteJob | src/main/java/com/jobengine/executor/ThreadPoolJobExecutor.java:145-191 | the pool task yields the task's result and records one THREAD_POOL completion, with the gauge restored |
| ThreadPoolExecutor.ThreadPoolJobExecutor.GetMode | src/main/java/com/jobengine/executor/ThreadPoolJobExecutor.java:194-196 | the executor reports THREAD_POOL |
| AsyncExecutor.AsyncJobExecutor.Execute | src/main/java/com/jobengine/executor/AsyncJobExecutor.java:141-152 | null is refused with InvalidJobException; otherwise the job is set PENDING and the future is scheduled for this job |
| AsyncExecutor.AsyncJobExecutor.ExecuteJob | src/main/java/com/jobengine/executor/AsyncJobExecutor.java:154-204 | the virtual-thread task yields the task's result and records one ASYNC completion; the active count and gauge are restored |
| AsyncExecutor.AsyncJobExecutor.GetMode | src/main/java/com/jobengine/executor/AsyncJobExecutor.java:207-209 | the executor reports ASYNC |
| AsyncExecutor.AsyncJobExecutor.constructor | src/main/java/com/jobengine/executor/AsyncJobExecutor.java:120-138 | the executor keeps the given simulators' configurations and metrics service, and its active count starts at zero |
| AsyncExecutor.AsyncJobExecutor.GetActiveCount | src/main/java/com/jobengine/executor/AsyncJobExecutor.java:212-214 | the number of tasks inside executeJob; ExecuteJob puts it back after every run, so it reads zero between calls |
| JobServices.AgreeAfterRun | src/main/java/com/jobengine/service/JobService.java:68-80 | storing a sequential job together with its result keeps the stores consistent |
| JobServices.AgreeAfterHandOff | src/main/java/com/jobengine/service/JobService.java:68-80 | storing a pool or async job as pending without a result keeps the stores consistent |
| JobServices.AgreeAfterCompletion | src/main/java/com/jobengine/service/JobService.java:77-80 | storing a pending job's result as its future completes keeps the stores consistent |
| JobServices.BatchLabelsDistinct | src/main/java/com/jobengine/service/JobService.java:95-97 | batch jobs get pairwise distinct names and payloads, batch-job-i and payload-i |
| JobServices.BatchStep | src/main/java/com/jobengine/service/JobService.java:95-97 | each submitted batch job extends the batch in order, with the i-th name, payload and the mode |
| JobServices.ModesStep | src/main/java/com/jobengine/service/JobService.java:112-118 | each batch of the all-modes loop is recorded under its mode |
| JobServices.EveryModeHasBatch | src/main/java/com/jobengine/service/JobService.java:112-118 | after the loop over values() every mode has a batch |
| JobServices.JobService.constructor | src/main/java/com/jobengine/service/JobService.java:46-58 | the service starts with empty stores, no pending jobs, and the three given executors |
| JobServices.JobService.SubmitJob | src/main/java/com/jobengine/service/JobService.java:68-83 | the new job is stored under its fresh id; a sequential job has run along the lifecycle with its result stored and recorded; any other job is queued, valid, with status history [PENDING], no start or completion time, no result and no metrics change, so CompleteInFlight can take it |
| JobServices.JobService.StoreAndRun | src/main/java/com/jobengine/service/JobService.java:69-80 | a sequential job is stored, run to completion, and its task result is stored under its id |
| JobServices.JobService.StoreAndHandOff | src/main/java/com/jobengine/service/JobService.java:69-80 | a pool or async job is stored and handed to its executor, which leaves it queued: valid, status history [PENDING], no start or completion time; the result store is unchanged |
| JobServices.JobService.SubmitBatch | src/main/java/com/jobengine/service/JobService.java:92-101 | max(count, 0) new jobs named and paid in order with the given mode, all stored, and exactly their ids become known; a sequential batch has run job by job, each result stored and the meters replayed with the batch's recordings in order, with pending jobs untouched; any other batch is queued behind the jobs already pending, each job valid with status history [PENDING] and no timestamps, so CompleteInFlight can take each of them, with results and meters unchanged |
| JobServices.JobService.RunBatchJob | src/main/java/com/jobengine/service/JobService.java:95-97 | one sequential stream step: the i-th job is new, stored, has run along the lifecycle, its result is stored under a new id and recorded, and the earlier jobs are untouched |
| JobServices.JobService.QueueBatchJob | src/main/java/com/jobengine/service/JobService.java:95-97 | one pool or async stream step: the i-th job is new, stored and queued (valid, status history [PENDING], no timestamps), results and meters are unchanged, and the earlier jobs are untouched |
| JobServices.JobService.SubmitBatchJob | src/main/java/com/jobengine/service/JobService.java:95-97 | one stream step in either mode: the batch grows by one new job and keeps its progress, run and recorded for a sequential batch, queued behind the pending jobs otherwise |
| JobServices.RanStep | src/main/java/com/jobengine/service/JobService.java:95-97 | a job that has run extends a batch whose jobs have run, each with its own stored result |
| JobServices.RunStateStep | src/main/java/com/jobengine/service/JobService.java:95-97 | storing the next result and recording it extends the sequential batch's stored results and replayed recordings by that job |
| JobServices.JobService.SubmitBatchAllModes | src/main/java/com/jobengine/service/JobService.java:109-119 | one batch per mode in values() order, each of countPerMode jobs of that mode, and exactly their ids become known; the sequential group's results are stored and recorded in order, and the pool and async batches are queued after the jobs already pending, in that order; every batch is made of new jobs, and the async batch's jobs are queued |
| JobServices.JobService.SubmitModeBatch | src/main/java/com/jobengine/service/JobService.java:112-118 | one round of the loop over values(): the i-th mode's batch of new jobs is submitted from the i-th group and put under its mode, the earlier batches kept; a pool or async batch is queued |
| JobServices.JobService.CompleteInFlight | src/main/java/com/jobengine/service/JobService.java:77-80 | a pending job runs on its mode's executor; its result is stored under its id and recorded, and it leaves the pending set |
| JobServices.JobService.SubmitJobRunByCaller | src/main/java/com/jobengine/service/JobService.java:68-83 | a pool job that the full pool hands back to the submitting thread (CallerRunsPolicy) is stored, has run along the lifecycle with its task result stored under its id and recorded as a THREAD_POOL execution, and nothing is left pending |
| JobServices.JobService.PendingHasNoResult | src/main/java/com/jobengine/service/JobService.java:147-149 | a job whose future has not completed has no result to look up |
| JobServices.JobService.GetJob | src/main/java/com/jobengine/service/JobService.java:127-129 | present exactly when a job is stored under the id, and then that job |
| JobServices.JobService.GetJobStatus | src/main/java/com/jobengine/service/JobService.java:137-139 | present exactly when getJob is, and then that job's status |
| JobServices.JobService.GetJobResult | src/main/java/com/jobengine/service/JobService.java:147-149 | present exactly when a result is stored under the id, and then that result |
| JobServices.JobService.GetJobsByStatus | src/main/java/com/jobengine/service/JobService.java:166-170 | exactly the stored jobs with that status |
| JobServices.JobService.GetJobsByMode | src/main/java/com/jobengine/service/JobService.java:178-182 | exactly the stored jobs with that mode |
| JobServices.JobService.GetActiveJobCounts | src/main/java/com/jobengine/service/JobService.java:189-193 | one entry per mode, each the active count of that mode's executor; while no job is inside a run, the sequential and async counts are zero |
| JobServices.JobService.ClearAll | src/main/java/com/jobengine/service/JobService.java:199-205 | both stores are empty and the service stays consistent |
| JobResponses.ToMillis | src/main/java/com/jobengine/controller/dto/JobResponse.java:66 | whole milliseconds truncated toward zero: for a non-negative duration the largest ms with ms * 1000000 <= d, for a negative one the smallest ms with d <= ms * 1000000 |
| JobResponses.ToMillisMonotone | src/main/java/com/jobengine/controller/dto/JobResponse.java:66 | a longer duration never reports fewer milliseconds, and negating a duration negates its milliseconds |
| JobResponses.DetailsOf | src/main/java/com/jobengine/controller/dto/JobResponse.java:62-70 | details copy the result's outcome, texts and thread, with the duration in whole milliseconds truncated toward zero |
| JobResponses.FromResult | src/main/java/com/jobengine/controller/dto/JobResponse.java:59-82 | the response copies the job's fields and has details exactly when a result is given, and then they are that result's details |
| JobResponses.From | src/main/java/com/jobengine/controller/dto/JobResponse.java:39-50 | the response copies the job's fields and has no details |
| JobResponses.FromWithoutResult | src/main/java/com/jobengine/controller/dto/JobResponse.java:59-82 | from(job, null) equals from(job), and the two overloads differ only in the details |
| JobResponses.DetailsCarryOneText | src/main/java/com/jobengine/controller/dto/JobResponse.java:62-70 | details from a result built with text carry exactly one of output and error |
| MetricsResponses.TotalOrderFree | src/main/java/com/jobengine/controller/dto/MetricsResponse.java:28-36 | the summary's stream sums do not depend on the map's iteration order |
| MetricsResponses.TotalsCountEveryExecution | src/main/java/com/jobengine/controller/dto/MetricsResponse.java:28-33 | when each mode's counters balance its timer, total completed + total failed is the total executions |
| MetricsResponses.TotalsCoverEveryExecution | src/main/java/com/jobengine/controller/dto/MetricsResponse.java:28-33 | when no mode's counters fall short of its timer, total completed + total failed is at least the total executions |
| MetricsResponses.FastestIndex | src/main/java/com/jobengine/controller/dto/MetricsResponse.java:38-44 | no pick iff no entry has executions; otherwise the pick has executions and a minimal average, and it is the first such entry in iteration order |
| MetricsResponses.From | src/main/java/com/jobengine/controller/dto/MetricsResponse.java:27-51 | the statistics pass through; fastestMode is N/A when nothing ran, and otherwise a mode that ran with the least average |
| MetricsResponses.FromTotals | src/main/java/com/jobengine/controller/dto/MetricsResponse.java:28-36 | the totals equal the sums in any enumeration of the map; completed + failed covers the executions when no mode falls short, and equals them when every mode balances |
| BatchSubmitRequests.Make | src/main/java/com/jobengine/controller/dto/BatchSubmitRequest.java:20-24 | a positive count is kept and any other becomes 10, so the count is always at least 1; the mode is kept |
| BatchSubmitRequests.MakeIdempotent | src/main/java/com/jobengine/controller/dto/BatchSubmitRequest.java:20-24 | normalising an already built request changes nothing |

## Left out

- JobServices.JobService.SubmitJob: for a sequential job the contract says only that the stored result follows the lifecycle and was recorded. It does not restate which result it is. JobServices.JobService.StoreAndRun and the executor contracts give its exact value, the task result.
- IoSimulator.Retried: the `@Retry` instance's attempt count and backoff are configured outside the repository. Retried takes any non-empty list of attempts and retries every failure until one is interrupted. An interrupted attempt re-sets the thread's interrupt flag, so the retry library's next wait throws; the model ends the retries there with the fallback, and the library's own handling of that exception is not modelled. Backoff waiting is time, which is not modelled.
- The thread pool's `getActiveCount`, `getQueueSize` and `getPoolSize` read JDK executor state. `GetActiveJobCounts` takes the pool's active count as a parameter, and the queue and pool size are not modelled.
- Metrics.StatsOf: the Micrometer timer maximum (a decaying window) and the free-text description of `ModeStats` are not modelled.
- `getSystemMetrics`, `getGaugeValue`, the thread-pool gauges and the JVM section of the metrics response read the runtime, which is not modelled.
- Concurrency and scheduling: pool and async jobs that their executor accepts run later, one at a time, in an order the caller chooses with `CompleteInFlight`. A pool job the full pool rejects runs at once in the submitting thread (`SubmitJobRunByCaller`). Interleavings inside a run are not modelled.
- Java `int` and `long` overflow: the prime and latency limits are bounded so that the Java arithmetic cannot overflow (`CpuSimulator.MaxSafeLimit`, `IoSimulator.Usable`), and sums and counters are unbounded integers.
- `getAllJobs` returns the map's values in HashMap order. The filters are modelled as sets, and this unordered listing is left out.
- HashMap iteration order is a parameter (`order`) of `MetricsResponses.From`. Sets stand in for the filtered lists.
- Logging is not modelled.
- Bean validation: `JobEngineProperties` is `@Validated`, so its `@Min(0)` and `@Max(1)` bounds hold for every configuration the simulators get. The model states them as `IoSimulationConfig.Constrained`, part of the I/O simulator's precondition `IoSimulator.Usable`. The request annotations (`@Min`, `@Max`, `@NotBlank` on the DTOs) run in the web layer and are not modelled.
- JobServices.JobService.SubmitJob: the pool is built with a bounded `LinkedBlockingQueue` and `CallerRunsPolicy` (ExecutorConfig.java:83-91). Whether it accepts a job depends on its busy threads and queue length, which are JDK executor state and not modelled. SubmitJob models an accepted pool job, and SubmitJobRunByCaller a rejected one, which is SubmitJob followed at once by CompleteInFlight on the new job. The caller chooses which one applies.
- JobServices.JobService.SubmitBatch: every job of a THREAD_POOL batch is modelled as accepted by the pool. With the default configuration (16 threads, 100 queued tasks), a batch of more than 116 pool jobs has its later jobs run in the submitting thread, finished with their results stored, which the model does not capture.
- JobServices.JobService.CompleteInFlight requires the pending job to satisfy its own invariant. Every submission of a pool or async job (SubmitJob, SubmitBatch) leaves it queued, which establishes that requirement. The run is stated relative to the job's status history at that moment.
- JobServices.JobService.SubmitBatchAllModes: states the stores, meters and pending queue after all three batches, and the job names, modes and ids of each batch. It also states that every batch is made of new jobs and that the async batch, submitted last, is queued. It does not restate the statuses of the sequential and pool batches' jobs after the later batches; SubmitBatch states them for each batch when it returns.
- `clearAll` leaves pending tasks running, and their later completion stores results, as in the Java code.
- `JobController`, `GlobalExceptionHandler`, `ExecutorConfig` and the application class are wiring and HTTP plumbing and are not part of this model.
- Floating point: rates and averages are reals, and `Double.compare` is real comparison.
- Thread.sleep is modelled only by whether it was interrupted. The time spent sleeping is not modelled; the @Min(0) bounds keep its argument non-negative.
