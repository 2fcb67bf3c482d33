/** JobResponse: what the HTTP layer reports for a job, copied from the job and, when it
    has one, from its result. */
module JobResponses {
  import opened Wrappers
  import opened ExecutionModes
  import opened JobStatuses
  import opened Jobs
  import opened JobResults

  /** Result details; executionTimeMs is Duration.toMillis() of the result's duration. */
  datatype ResultDetails = ResultDetails(
    success: bool,
    output: Option<string>,
    errorMessage: Option<string>,
    executionTimeMs: int,
    threadName: string,
    threadId: int,
    virtualThread: bool)

  datatype JobResponse = JobResponse(
    id: string,
    name: string,
    status: JobStatus,
    executionMode: ExecutionMode,
    createdAt: Instant,
    startedAt: Option<Instant>,
    completedAt: Option<Instant>,
    result: Option<ResultDetails>)

  const NanosPerMilli: nat := 1000000

  /** Duration.toMillis(): the whole milliseconds in the duration, the part of a
      millisecond left over dropped, so it rounds toward zero for a negative duration
      as well. */
  function ToMillis(d: Duration): (ms: int)
    ensures d >= 0 ==> ms >= 0 && ms * NanosPerMilli <= d < (ms + 1) * NanosPerMilli
    ensures d < 0 ==> ms <= 0 && (ms - 1) * NanosPerMilli < d <= ms * NanosPerMilli
  {
    if d >= 0 then d / NanosPerMilli else -((-d) / NanosPerMilli)
  }

  /** Whole milliseconds grow with the duration, and a duration and its negation report
      opposite numbers of milliseconds. */
  lemma ToMillisMonotone(d: Duration, e: Duration)
    requires d <= e
    ensures ToMillis(d) <= ToMillis(e)
    ensures ToMillis(-d) == -ToMillis(d)
  {
  }

  /** The details block built from a result. */
  function DetailsOf(r: JobResult): (d: ResultDetails)
    ensures d.success == r.success && d.output == r.output && d.errorMessage == r.errorMessage
    ensures d.threadName == r.threadName && d.threadId == r.threadId && d.virtualThread == r.isVirtualThread
    ensures r.executionTime >= 0 ==>
              0 <= d.executionTimeMs && d.executionTimeMs * NanosPerMilli <= r.executionTime < (d.executionTimeMs + 1) * NanosPerMilli
    ensures r.executionTime < 0 ==>
              d.executionTimeMs <= 0 && (d.executionTimeMs - 1) * NanosPerMilli < r.executionTime <= d.executionTimeMs * NanosPerMilli
  {
    ResultDetails(r.success, r.output, r.errorMessage, ToMillis(r.executionTime),
                  r.threadName, r.threadId, r.isVirtualThread)
  }

  /** from(job, result): the job's fields, with details exactly when a result is given. */
  function FromResult(job: Job, result: Option<JobResult>): (resp: JobResponse)
    reads job
    ensures resp.id == job.id && resp.name == job.name && resp.executionMode == job.executionMode
    ensures resp.status == job.status && resp.createdAt == job.createdAt
    ensures resp.startedAt == job.startedAt && resp.completedAt == job.completedAt
    ensures resp.result.Some? <==> result.Some?
    ensures result.Some? ==> resp.result == Some(DetailsOf(result.value))
  {
    JobResponse(job.id, job.name, job.status, job.executionMode, job.createdAt,
                job.startedAt, job.completedAt,
                match result case None => None case Some(r) => Some(DetailsOf(r)))
  }

  /** from(job): the job's fields and no result details. */
  function From(job: Job): (resp: JobResponse)
    reads job
    ensures resp.id == job.id && resp.name == job.name && resp.executionMode == job.executionMode
    ensures resp.status == job.status && resp.createdAt == job.createdAt
    ensures resp.startedAt == job.startedAt && resp.completedAt == job.completedAt
    ensures resp.result == None
  {
    JobResponse(job.id, job.name, job.status, job.executionMode, job.createdAt,
                job.startedAt, job.completedAt, None)
  }

  /** The two overloads agree: from(job, null) is from(job), and with a result the
      response differs from from(job) only in the details. */
  lemma FromWithoutResult(job: Job, result: Option<JobResult>)
    ensures FromResult(job, None) == From(job)
    ensures FromResult(job, result) == From(job).(result := FromResult(job, result).result)
  {
  }

  /** A response for a result built by either factory from a non-null text carries exactly
      one of output and error message, and its success flag says which. */
  lemma DetailsCarryOneText(job: Job, text: string, executionTime: Duration, current: ThreadInfo, success: bool)
    ensures var r := if success then Success(job, Some(text), executionTime, current)
                     else Failure(job, Some(text), executionTime, current);
            var d := DetailsOf(r);
            && d.success == success
            && (d.output.Some? <==> success) && (d.errorMessage.Some? <==> !success)
            && d.threadName == current.name && d.threadId == current.id && d.virtualThread == current.isVirtual
  {
    ExactlyOneOfOutputAndError(job, text, executionTime, current, success);
  }
}
