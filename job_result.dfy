/** JobResult: the immutable outcome of one execution, built by the success and
    failure factories from a snapshot of the executing thread. */
module JobResults {
  import opened Wrappers
  import opened Jobs

  /** java.time.Duration, in nanoseconds. A duration between two Instant.now() readings is
      negative when the wall clock was set back in between. */
  type Duration = int

  /** What Thread.currentThread() reports at the moment the result is created. */
  datatype ThreadInfo = ThreadInfo(name: string, id: int, isVirtual: bool)

  datatype JobResult = JobResult(
    job: Job,
    success: bool,
    output: Option<string>,
    errorMessage: Option<string>,
    executionTime: Duration,
    threadName: string,
    threadId: int,
    isVirtualThread: bool)
  {
    /** The thread snapshot the result was created with. */
    function Thread(): ThreadInfo {
      ThreadInfo(threadName, threadId, isVirtualThread)
    }
  }

  function Success(job: Job, output: Option<string>, executionTime: Duration, current: ThreadInfo): (r: JobResult)
    ensures r.success && r.output == output && r.errorMessage == None
    ensures r.job == job && r.executionTime == executionTime && r.Thread() == current
  {
    JobResult(job, true, output, None, executionTime, current.name, current.id, current.isVirtual)
  }

  function Failure(job: Job, errorMessage: Option<string>, executionTime: Duration, current: ThreadInfo): (r: JobResult)
    ensures !r.success && r.output == None && r.errorMessage == errorMessage
    ensures r.job == job && r.executionTime == executionTime && r.Thread() == current
  {
    JobResult(job, false, None, errorMessage, executionTime, current.name, current.id, current.isVirtual)
  }

  /** A result built by either factory from a non-null output or message carries exactly
      one of the two, and the success flag says which. */
  lemma ExactlyOneOfOutputAndError(job: Job, text: string, executionTime: Duration, current: ThreadInfo, success: bool)
    ensures var r := if success then Success(job, Some(text), executionTime, current)
                     else Failure(job, Some(text), executionTime, current);
      && r.output.Some? != r.errorMessage.Some?
      && (r.success <==> r.output.Some?)
  {
  }
}
