/** ThreadPoolJobExecutor: execute marks the job PENDING and hands executeJob to a pool of
    platform threads. The hand-off is not modelled as threads: execute returns the job as
    scheduled, and whoever completes the future later calls ExecuteJob. */
module ThreadPoolExecutor {
  import opened Wrappers
  import opened Exceptions
  import opened Config
  import opened ExecutionModes
  import opened JobStatuses
  import opened Jobs
  import opened JobResults
  import opened Metrics
  import opened JobTasks

  class ThreadPoolJobExecutor {
    const cpu: CpuSimulationConfig
    const io: IoSimulationConfig
    const metrics: MetricsService

    constructor (cpu: CpuSimulationConfig, io: IoSimulationConfig, metrics: MetricsService)
      ensures this.cpu == cpu && this.io == io && this.metrics == metrics
    {
      this.cpu := cpu;
      this.io := io;
      this.metrics := metrics;
    }

    /** execute: a null job is refused; otherwise the job is set to PENDING before the
        task is handed over, and nothing else changes. */
    method Execute(job: Job?) returns (r: Result<Future, Exception>)
      requires job != null ==> job.Valid()
      modifies job
      ensures job == null ==> r == Err(InvalidJobException(NullJobMessage))
      ensures job != null ==>
        && r == Ok(Scheduled(job))
        && job.Valid() && job.status == PENDING && job.history == Moved(old(job.history), PENDING)
        && job.startedAt == old(job.startedAt) && job.completedAt == old(job.completedAt)
    {
      if job == null {
        return Err(InvalidJobException(NullJobMessage));
      }
      job.SetStatus(PENDING);
      r := Ok(Scheduled(job));
    }

    /** executeJob, run on a pool thread: the THREAD_POOL gauge goes up at the start and
        down in finally, and exactly one recording is made, with the result's flag. */
    method ExecuteJob(job: Job, env: TaskEnv) returns (result: JobResult)
      requires job.Valid() && metrics.Valid() && Ready(cpu, io) && env.Valid()
      modifies job, metrics
      ensures result == TaskResult(job, cpu, io, env)
      ensures RanTo(job, old(job.history), result, env)
      ensures metrics.Valid()
      ensures metrics.meters == Recorded(old(metrics.meters), THREAD_POOL, env.clock.Elapsed(), result.success)
    {
      ghost var before := metrics.meters;
      metrics.IncrementActive(THREAD_POOL);
      result := RunTask(job, THREAD_POOL, metrics, cpu, io, env);
      metrics.DecrementActive(THREAD_POOL);
      GaugeNetsToZero(before, THREAD_POOL, env.clock.Elapsed(), result.success);
    }

    function GetMode(): (m: ExecutionMode)
      ensures m == THREAD_POOL
    {
      THREAD_POOL
    }
  }
}
