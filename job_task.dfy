/** The task body the three executors share: mark the job running, count primes up to a
    limit drawn once, pass the payload and the count to the I/O simulator, then mark the
    job completed or failed, build its result and record it once in the metrics. What
    the executors add around it (null check, counters, hand-off) is in their own files. */
module JobTasks {
  import opened Wrappers
  import opened Exceptions
  import opened Decimal
  import opened Config
  import opened ExecutionModes
  import opened JobStatuses
  import opened Jobs
  import opened JobResults
  import opened Metrics
  import CpuSimulator
  import IoSimulator

  /** The Instant.now() readings a task takes, in order: when it starts, when it measures
      its duration, and when it stamps its completion. The wall clock may be set back
      between readings, so they need not be ordered. */
  datatype Clock = Clock(start: Instant, end: Instant, completed: Instant) {
    /** Duration.between(start, end): negative when the clock went back. */
    function Elapsed(): Duration {
      end - start
    }
  }

  /** Everything one run of a task observes from outside: the draw behind the prime limit,
      the draws of each I/O attempt, the clock and the thread that runs it. */
  datatype TaskEnv = TaskEnv(limitDraw: nat, ioAttempts: seq<IoSimulator.IoDraws>, clock: Clock, thread: ThreadInfo) {
    predicate Valid() {
      |ioAttempts| > 0
    }
  }

  /** The simulators can be built from the configuration, and their work stays within
      Java's int range. */
  predicate Ready(cpu: CpuSimulationConfig, io: IoSimulationConfig) {
    CpuSimulator.Usable(cpu) && IoSimulator.Usable(io)
  }

  /** What a completed future holds, or the job a scheduled one will run. */
  datatype Future = Done(result: JobResult) | Scheduled(job: Job)

  const NullJobMessage: string := "Job must not be null"

  /** The text handed to the I/O simulator: the payload (the word null when there is
      none), then the number of primes found. */
  function IoInput(payload: Option<string>, primes: nat): string {
    TextOrNull(payload) + " [primes=" + IntToString(primes) + "]"
  }

  /** The outcome of the task's work for a job with this payload. */
  ghost function TaskOutcome(payload: Option<string>, cpu: CpuSimulationConfig, io: IoSimulationConfig, env: TaskEnv): Result<string, Exception>
    requires Ready(cpu, io) && env.Valid()
  {
    var limit := CpuSimulator.GenerateRandomLimit(cpu, env.limitDraw);
    IoSimulator.Retried(io, Some(IoInput(payload, CpuSimulator.PrimesFound(cpu, limit))), env.ioAttempts)
  }

  /** The result a task builds: success with the I/O output, or failure with the message
      of the exception the I/O work ended in. */
  ghost function TaskResult(job: Job, cpu: CpuSimulationConfig, io: IoSimulationConfig, env: TaskEnv): JobResult
    requires Ready(cpu, io) && env.Valid()
  {
    match TaskOutcome(job.payload, cpu, io, env)
    case Ok(output) => Success(job, Some(output), env.clock.Elapsed(), env.thread)
    case Err(e) => Failure(job, e.Message(), env.clock.Elapsed(), env.thread)
  }

  /** A task whose I/O attempts fail by chaos until one is interrupted fails with the
      fallback's message about the interruption, even when a later draw would have
      succeeded. */
  lemma InterruptedTaskFails(job: Job, cpu: CpuSimulationConfig, io: IoSimulationConfig, env: TaskEnv, i: nat)
    requires Ready(cpu, io) && env.Valid() && i < |env.ioAttempts|
    requires IoSimulator.Interrupted(io, env.ioAttempts[i])
    requires forall j :: 0 <= j < i ==> IoSimulator.ChaosFailureFires(io, env.ioAttempts[j])
    ensures !TaskResult(job, cpu, io, env).success
    ensures TaskResult(job, cpu, io, env).errorMessage == Some(IoSimulator.FallbackPrefix + IoSimulator.InterruptedMessage)
  {
    var limit := CpuSimulator.GenerateRandomLimit(cpu, env.limitDraw);
    var input := Some(IoInput(job.payload, CpuSimulator.PrimesFound(cpu, limit)));
    IoSimulator.InterruptionIsFinal(io, input, env.ioAttempts, i);
  }

  /** The state a run of the task leaves its job in, given the statuses the job had taken
      before it: started at the first clock reading, RUNNING, then COMPLETED exactly when
      the result is a success and FAILED otherwise, stamped at the last reading. */
  ghost predicate RanTo(job: Job, before: seq<JobStatus>, result: JobResult, env: TaskEnv)
    reads job
  {
    && job.Valid()
    && job.status == (if result.success then COMPLETED else FAILED)
    && job.history == Moved(Moved(before, RUNNING), job.status)
    && job.startedAt == Some(env.clock.start)
    && job.completedAt == Some(env.clock.completed)
  }

  /** A job that was waiting in PENDING and then ran follows the diagram's lifecycle:
      PENDING, RUNNING, then one terminal status. */
  lemma RunFollowsLifecycle(before: seq<JobStatus>, final: JobStatus)
    requires IsLifecyclePath(before) && before[|before| - 1] == PENDING && IsTerminal(final)
    ensures Moved(Moved(before, RUNNING), final) == before + [RUNNING, final]
    ensures IsLifecyclePath(before + [RUNNING, final])
  {
    assert Moved(before, RUNNING) == before + [RUNNING];
    assert Moved(before + [RUNNING], final) == before + [RUNNING] + [final];
    var t := before + [RUNNING, final];
    forall k | 0 < k < |t| ensures CanTransition(t[k - 1], t[k]) {
      if k < |before| {
        assert t[k - 1] == before[k - 1] && t[k] == before[k];
      }
    }
  }

  /** The body of execute (sequential) and executeJob (thread pool, async) between the
      counter updates, with `mode` the executor's mode. */
  method RunTask(job: Job, mode: ExecutionMode, metrics: MetricsService, cpu: CpuSimulationConfig, io: IoSimulationConfig, env: TaskEnv)
    returns (result: JobResult)
    requires job.Valid() && metrics.Valid() && Ready(cpu, io) && env.Valid()
    modifies job`status, job`history, job`startedAt, job`completedAt, metrics
    ensures result == TaskResult(job, cpu, io, env)
    ensures RanTo(job, old(job.history), result, env)
    ensures metrics.Valid() && metrics.meters == Recorded(old(metrics.meters), mode, env.clock.Elapsed(), result.success)
  {
    var startTime := env.clock.start;
    job.SetStatus(RUNNING);
    job.SetStartedAt(startTime);
    // the limit is drawn once, before the work that may fail
    var primeLimit := CpuSimulator.GenerateRandomLimit(cpu, env.limitDraw);
    var primesFound := CpuSimulator.CountPrimesUpTo(cpu, primeLimit);
    var outcome := IoSimulator.Retried(io, Some(IoInput(job.payload, primesFound)), env.ioAttempts);
    var executionTime := env.clock.Elapsed();
    if outcome.Ok? {
      job.SetStatus(COMPLETED);
      job.SetCompletedAt(env.clock.completed);
      result := Success(job, Some(outcome.value), executionTime, env.thread);
      metrics.RecordJobCompletion(mode, executionTime, true);
    } else {
      job.SetStatus(FAILED);
      job.SetCompletedAt(env.clock.completed);
      result := Failure(job, outcome.error.Message(), executionTime, env.thread);
      metrics.RecordJobCompletion(mode, executionTime, false);
    }
  }
}
