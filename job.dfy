/** Job: identity fields fixed at construction, and a status with start and completion
    stamps that the executors update in place. */
module Jobs {
  import opened Wrappers
  import opened ExecutionModes
  import opened JobStatuses

  /** A reading of Instant.now(), in nanoseconds. */
  type Instant = int

  /** The status history after setting status s: setting the status a job already
      has is not a move. */
  ghost function Moved(history: seq<JobStatus>, s: JobStatus): (h: seq<JobStatus>)
    ensures |h| > 0 && h[|h| - 1] == s
  {
    if |history| > 0 && history[|history| - 1] == s then history else history + [s]
  }

  class Job {
    const id: string
    const name: string
    const payload: Option<string>
    const executionMode: ExecutionMode
    const createdAt: Instant
    var status: JobStatus
    var startedAt: Option<Instant>
    var completedAt: Option<Instant>
    /** The statuses this job has taken, oldest first. */
    ghost var history: seq<JobStatus>

    ghost predicate Valid()
      reads this
    {
      |history| > 0 && history[|history| - 1] == status
    }

    /** The id is a fresh UUID and createdAt a clock reading, both given by the caller. */
    constructor (id: string, name: string, payload: Option<string>, executionMode: ExecutionMode, createdAt: Instant)
      ensures Valid()
      ensures this.id == id && this.name == name && this.payload == payload
      ensures this.executionMode == executionMode && this.createdAt == createdAt
      ensures status == PENDING && startedAt == None && completedAt == None
      ensures history == [PENDING] && IsLifecyclePath(history)
    {
      this.id := id;
      this.name := name;
      this.payload := payload;
      this.executionMode := executionMode;
      this.createdAt := createdAt;
      status := PENDING;
      startedAt := None;
      completedAt := None;
      history := [PENDING];
    }

    method SetStatus(s: JobStatus)
      requires Valid()
      modifies this`status, this`history
      ensures Valid()
      ensures status == s && history == Moved(old(history), s)
    {
      status := s;
      history := Moved(history, s);
    }

    method SetStartedAt(t: Instant)
      modifies this`startedAt
      ensures startedAt == Some(t)
    {
      startedAt := Some(t);
    }

    method SetCompletedAt(t: Instant)
      modifies this`completedAt
      ensures completedAt == Some(t)
    {
      completedAt := Some(t);
    }
  }
}
