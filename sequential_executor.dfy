/** SequentialJobExecutor: runs the job in the caller's thread and hands back a future
    that is already complete. */
module SequentialExecutor {
  import opened Wrappers
  import opened Exceptions
  import opened Config
  import opened ExecutionModes
  import opened JobStatuses
  import opened Jobs
  import opened JobResults
  import opened Metrics
  import opened JobTasks

  class SequentialJobExecutor {
    const cpu: CpuSimulationConfig
    const io: IoSimulationConfig
    const metrics: MetricsService
    /** Jobs currently inside execute. */
    var activeCount: int

    constructor (cpu: CpuSimulationConfig, io: IoSimulationConfig, metrics: MetricsService)
      ensures this.cpu == cpu && this.io == io && this.metrics == metrics && activeCount == 0
    {
      this.cpu := cpu;
      this.io := io;
      this.metrics := metrics;
      activeCount := 0;
    }

    /** execute: a null job is refused before anything changes; otherwise the job runs to
        completion inside the call, the counter and the SEQUENTIAL gauge go up and come
        back down whichever way it ends, and exactly one recording is made, with the
        result's success flag. */
    method Execute(job: Job?, env: TaskEnv) returns (r: Result<Future, Exception>)
      requires metrics.Valid() && Ready(cpu, io)
      requires job != null ==> job.Valid() && env.Valid()
      modifies this`activeCount, metrics, job
      ensures metrics.Valid() && activeCount == old(activeCount)
      ensures job == null ==> r == Err(InvalidJobException(NullJobMessage)) && metrics.meters == old(metrics.meters)
      ensures job != null ==>
        && r == Ok(Done(TaskResult(job, cpu, io, env)))
        && RanTo(job, old(job.history), r.value.result, env)
        && metrics.meters == Recorded(old(metrics.meters), SEQUENTIAL, env.clock.Elapsed(), r.value.result.success)
    {
      if job == null {
        return Err(InvalidJobException(NullJobMessage));
      }
      ghost var before := metrics.meters;
      activeCount := activeCount + 1;
      metrics.IncrementActive(SEQUENTIAL);
      var result := RunTask(job, SEQUENTIAL, metrics, cpu, io, env);
      activeCount := activeCount - 1;
      metrics.DecrementActive(SEQUENTIAL);
      GaugeNetsToZero(before, SEQUENTIAL, env.clock.Elapsed(), result.success);
      r := Ok(Done(result));
    }

    function GetMode(): (m: ExecutionMode)
      ensures m == SEQUENTIAL
    {
      SEQUENTIAL
    }

    /** getActiveCount: how many jobs are inside the executor's run right now. Every run
        puts it back where it was, so it is zero whenever no job is running. */
    function GetActiveCount(): (n: int)
      reads this
      ensures n == activeCount
    {
      activeCount
    }
  }
}
