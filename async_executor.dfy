/** AsyncJobExecutor: execute marks the job PENDING and starts executeJob on a virtual
    thread. As for the pool, the hand-off is a Scheduled future that is completed later
    by a call to ExecuteJob. */
module AsyncExecutor {
  import opened Wrappers
  import opened Exceptions
  import opened Config
  import opened ExecutionModes
  import opened JobStatuses
  import opened Jobs
  import opened JobResults
  import opened Metrics
  import opened JobTasks

  class AsyncJobExecutor {
    const cpu: CpuSimulationConfig
    const io: IoSimulationConfig
    const metrics: MetricsService
    /** Tasks currently inside executeJob. */
    var activeCount: int

    constructor (cpu: CpuSimulationConfig, io: IoSimulationConfig, metrics: MetricsService)
      ensures this.cpu == cpu && this.io == io && this.metrics == metrics && activeCount == 0
    {
      this.cpu := cpu;
      this.io := io;
      this.metrics := metrics;
      activeCount := 0;
    }

    /** execute: a null job is refused; otherwise the job is set to PENDING before the
        task is submitted, and nothing else changes. */
    method Execute(job: Job?) returns (r: Result<Future, Exception>)
      requires job != null ==> job.Valid()
      modifies job
      ensures job == null ==> r == Err(InvalidJobException(NullJobMessage))
      ensures job != null ==>
        && r == Ok(Scheduled(job))
        && job.Valid() && job.status == PENDING && job.history == Moved(old(job.history), PENDING)
        && job.startedAt == old(job.startedAt) && job.completedAt == old(job.completedAt)
    {
      if job == null {
        return Err(InvalidJobException(NullJobMessage));
      }
      job.SetStatus(PENDING);
      r := Ok(Scheduled(job));
    }

    /** executeJob, run on a virtual thread: the counter and the ASYNC gauge go up at the
        start and down in finally on both paths, and exactly one recording is made, with
        the result's flag. */
    method ExecuteJob(job: Job, env: TaskEnv) returns (result: JobResult)
      requires job.Valid() && metrics.Valid() && Ready(cpu, io) && env.Valid()
      modifies this`activeCount, job, metrics
      ensures activeCount == old(activeCount)
      ensures result == TaskResult(job, cpu, io, env)
      ensures RanTo(job, old(job.history), result, env)
      ensures metrics.Valid()
      ensures metrics.meters == Recorded(old(metrics.meters), ASYNC, env.clock.Elapsed(), result.success)
    {
      ghost var before := metrics.meters;
      activeCount := activeCount + 1;
      metrics.IncrementActive(ASYNC);
      result := RunTask(job, ASYNC, metrics, cpu, io, env);
      activeCount := activeCount - 1;
      metrics.DecrementActive(ASYNC);
      GaugeNetsToZero(before, ASYNC, env.clock.Elapsed(), result.success);
    }

    function GetMode(): (m: ExecutionMode)
      ensures m == ASYNC
    {
      ASYNC
    }

    /** getActiveCount: how many jobs are inside the executor's run right now. Every run
        puts it back where it was, so it is zero whenever no job is running. */
    function GetActiveCount(): (n: int)
      reads this
      ensures n == activeCount
    {
      activeCount
    }
  }
}
