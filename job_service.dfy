/** JobService: the in-memory job store. Submitting stores the job under its id and
    dispatches it to the executor of its mode; a result is stored under the job's id when
    the executor's future completes. A sequential job's future is complete when execute
    returns, so its result is stored within the submission; a pool or async job stays
    pending until its task is run by CompleteInFlight. */
module JobServices {
  import opened Wrappers
  import opened Exceptions
  import opened Decimal
  import opened Config
  import opened ExecutionModes
  import opened JobStatuses
  import opened Jobs
  import opened JobResults
  import opened Metrics
  import opened JobTasks
  import opened SequentialExecutor
  import opened ThreadPoolExecutor
  import opened AsyncExecutor

  /** What one submission takes from outside: the id UUID.randomUUID() yields, the
      creation time Instant.now() yields, and what a sequential run observes. */
  datatype Submission = Submission(id: string, createdAt: Instant, env: TaskEnv)

  /** The ids of the given submissions. */
  function IdsOf(subs: seq<Submission>): (ids: set<string>)
    ensures forall i :: 0 <= i < |subs| ==> subs[i].id in ids
    ensures forall id :: id in ids ==> exists i :: 0 <= i < |subs| && subs[i].id == id
  {
    set i | 0 <= i < |subs| :: subs[i].id
  }

  /** The submissions carry pairwise different ids. */
  predicate DistinctIds(subs: seq<Submission>) {
    forall i, j :: 0 <= i < j < |subs| ==> subs[i].id != subs[j].id
  }

  /** The ids of the given jobs. */
  function IdsOfJobs(js: seq<Job>): set<string> {
    set k | 0 <= k < |js| :: js[k].id
  }

  lemma IdsOfAppended(js: seq<Job>, j: Job)
    ensures IdsOfJobs(js + [j]) == IdsOfJobs(js) + {j.id}
  {
    var t := js + [j];
    assert forall k :: 0 <= k < |js| ==> t[k] == js[k];
    assert t[|js|] == j;
  }

  /** Taking out one of jobs with distinct ids takes out exactly its id. */
  lemma IdsOfRemoved(js: seq<Job>, k: nat)
    requires k < |js|
    requires forall i, j :: 0 <= i < j < |js| ==> js[i].id != js[j].id
    ensures IdsOfJobs(js[..k] + js[k + 1..]) == IdsOfJobs(js) - {js[k].id}
  {
    var t := js[..k] + js[k + 1..];
    assert forall i :: 0 <= i < k ==> t[i] == js[i];
    assert forall i :: k <= i < |t| ==> t[i] == js[i + 1];
    forall id | id in IdsOfJobs(js) - {js[k].id} ensures id in IdsOfJobs(t) {
      var i :| 0 <= i < |js| && js[i].id == id;
      if i < k { assert t[i] == js[i]; } else { assert t[i - 1] == js[i]; }
    }
  }

  /** Every id held in the job store, the result store or the pending jobs. */
  function Known(jobs: map<string, Job>, results: map<string, JobResult>, pending: seq<Job>): set<string> {
    jobs.Keys + results.Keys + IdsOfJobs(pending)
  }

  lemma KnownAfterRun(jobs: map<string, Job>, results: map<string, JobResult>, pending: seq<Job>, job: Job, r: JobResult)
    ensures Known(jobs[job.id := job], results[job.id := r], pending) == Known(jobs, results, pending) + {job.id}
  {
  }

  lemma KnownAfterHandOff(jobs: map<string, Job>, results: map<string, JobResult>, pending: seq<Job>, job: Job)
    ensures Known(jobs[job.id := job], results, pending + [job]) == Known(jobs, results, pending) + {job.id}
  {
    IdsOfAppended(pending, job);
  }

  /** How the job store, the result store and the pending jobs fit together: a stored job
      is filed under its own id and either has its result, which is about that very job,
      or is pending, never both; a pending job is a pool or async job with no result, is
      the job stored under its id, if any, and no two pending jobs share an id. */
  predicate StoresAgree(jobs: map<string, Job>, results: map<string, JobResult>, pending: seq<Job>)
  {
    && (forall id :: id in jobs ==>
          && jobs[id].id == id
          && (id in results <==> id !in IdsOfJobs(pending))
          && (id in results ==> results[id].job == jobs[id]))
    && (forall k :: 0 <= k < |pending| ==>
          && pending[k].executionMode != SEQUENTIAL
          && pending[k].id !in results
          && (pending[k].id in jobs ==> jobs[pending[k].id] == pending[k]))
    && (forall i, j :: 0 <= i < j < |pending| ==> pending[i].id != pending[j].id)
  }

  /** A sequential submission files the new job and its result together. */
  lemma {:induction false} AgreeAfterRun(jobs: map<string, Job>, results: map<string, JobResult>, pending: seq<Job>, r: JobResult)
    requires StoresAgree(jobs, results, pending)
    requires r.job.id !in jobs && r.job.id !in results && r.job.id !in IdsOfJobs(pending)
    ensures StoresAgree(jobs[r.job.id := r.job], results[r.job.id := r], pending)
  {
    forall k | 0 <= k < |pending| ensures pending[k].id != r.job.id {
      assert pending[k].id in IdsOfJobs(pending);
    }
  }

  /** A pool or async submission files the new job and makes it pending. */
  lemma {:induction false} AgreeAfterHandOff(jobs: map<string, Job>, results: map<string, JobResult>, pending: seq<Job>, job: Job)
    requires StoresAgree(jobs, results, pending)
    requires job.id !in jobs && job.id !in results && job.id !in IdsOfJobs(pending)
    requires job.executionMode != SEQUENTIAL
    ensures StoresAgree(jobs[job.id := job], results, pending + [job])
  {
    IdsOfAppended(pending, job);
    var t := pending + [job];
    forall k | 0 <= k < |pending| ensures t[k] == pending[k] && pending[k].id in IdsOfJobs(pending) {}
  }

  /** Completing the k-th pending job files its result and ends its pending state. */
  lemma {:induction false} AgreeAfterCompletion(jobs: map<string, Job>, results: map<string, JobResult>, pending: seq<Job>, k: nat, r: JobResult)
    requires StoresAgree(jobs, results, pending) && k < |pending| && r.job == pending[k]
    ensures StoresAgree(jobs, results[r.job.id := r], pending[..k] + pending[k + 1..])
  {
    IdsOfRemoved(pending, k);
    var t := pending[..k] + pending[k + 1..];
    forall i | 0 <= i < |t| ensures t[i] == if i < k then pending[i] else pending[i + 1] {}
  }

  /** The name and payload submitBatch gives its i-th job. */
  function BatchName(i: int): string {
    "batch-job-" + IntToString(i)
  }

  function BatchPayload(i: int): Option<string> {
    Some("payload-" + IntToString(i))
  }

  /** The jobs of one batch carry pairwise different names and payloads. */
  lemma BatchLabelsDistinct(i: int, j: int)
    requires i != j
    ensures BatchName(i) != BatchName(j) && BatchPayload(i) != BatchPayload(j)
  {
    var p, q := "batch-job-", "payload-";
    assert BatchName(i)[|p|..] == IntToString(i) && BatchName(j)[|p|..] == IntToString(j);
    assert BatchPayload(i).value[|q|..] == IntToString(i);
    assert BatchPayload(j).value[|q|..] == IntToString(j);
    IntToStringInjective(i, j);
  }

  /** How many jobs IntStream.range(0, count) yields. */
  function BatchSize(count: int): nat {
    if count <= 0 then 0 else count
  }

  /** The ids of the first i submissions, then the next one. */
  lemma {:induction false} IdsOfPrefix(subs: seq<Submission>, i: nat)
    requires i < |subs|
    ensures IdsOf(subs[..i + 1]) == IdsOf(subs[..i]) + {subs[i].id}
  {
    var t := subs[..i + 1];
    forall id | id in IdsOf(t) ensures id in IdsOf(subs[..i]) + {subs[i].id} {
      var k :| 0 <= k < |t| && t[k].id == id;
      if k < i { assert t[k] == subs[..i][k]; }
    }
    forall k | 0 <= k < i ensures subs[..i][k].id in IdsOf(t) { assert t[k] == subs[..i][k]; }
    assert t[i] == subs[i];
  }

  /** Submitting the next job of a batch adds its id to those known. */
  lemma {:induction false} KnownStep(known: set<string>, subs: seq<Submission>, i: nat)
    requires i < |subs| && DistinctIds(subs) && IdsOf(subs) !! known
    ensures subs[i].id !in known + IdsOf(subs[..i])
    ensures known + IdsOf(subs[..i]) + {subs[i].id} == known + IdsOf(subs[..i + 1])
  {
    IdsOfPrefix(subs, i);
    assert subs[i].id in IdsOf(subs);
    forall k | 0 <= k < i ensures subs[..i][k].id != subs[i].id {
      assert subs[..i][k] == subs[k];
    }
  }

  /** The ids of several groups of submissions, group after group. */
  function GroupIds(groups: seq<seq<Submission>>): set<string> {
    if groups == [] then {} else GroupIds(groups[..|groups| - 1]) + IdsOf(groups[|groups| - 1])
  }

  /** Ids that no group shares are not among the ids of the groups together. */
  lemma {:induction false} GroupIdsDisjoint(ids: set<string>, groups: seq<seq<Submission>>)
    requires forall k :: 0 <= k < |groups| ==> IdsOf(groups[k]) !! ids
    ensures GroupIds(groups) !! ids
    decreases |groups|
  {
    if groups != [] {
      var front := groups[..|groups| - 1];
      forall k | 0 <= k < |front| ensures IdsOf(front[k]) !! ids {
        assert front[k] == groups[k];
      }
      GroupIdsDisjoint(ids, front);
    }
  }

  /** A group whose ids differ from those of every earlier group brings only new ids, and
      adding them gives the ids of one group more. */
  lemma GroupStep(known: set<string>, groups: seq<seq<Submission>>, i: nat)
    requires i < |groups|
    requires forall k, l :: 0 <= k < l < |groups| ==> IdsOf(groups[k]) !! IdsOf(groups[l])
    ensures IdsOf(groups[i]) !! GroupIds(groups[..i])
    ensures known + GroupIds(groups[..i]) + IdsOf(groups[i]) == known + GroupIds(groups[..i + 1])
  {
    assert groups[..i + 1][..i] == groups[..i];
    var front := groups[..i];
    forall k | 0 <= k < |front| ensures IdsOf(front[k]) !! IdsOf(groups[i]) {
      assert front[k] == groups[k];
    }
    GroupIdsDisjoint(IdsOf(groups[i]), front);
  }

  /** The first |jobs| jobs of a batch: the k-th has the k-th submission's id, the given
      mode, and the k-th batch name and payload. */
  predicate BatchSoFar(jobs: seq<Job>, subs: seq<Submission>, mode: ExecutionMode) {
    && |jobs| <= |subs|
    && forall k :: 0 <= k < |jobs| ==>
         && jobs[k].id == subs[k].id && jobs[k].executionMode == mode
         && jobs[k].name == BatchName(k) && jobs[k].payload == BatchPayload(k)
  }

  /** Every one of the jobs is stored under its id. */
  predicate Filed(store: map<string, Job>, jobs: seq<Job>) {
    forall k :: 0 <= k < |jobs| ==> jobs[k].id in store && store[jobs[k].id] == jobs[k]
  }

  /** Submitting the next job of a batch keeps the earlier ones filed. */
  lemma {:induction false} BatchStep(store: map<string, Job>, jobs: seq<Job>, subs: seq<Submission>, mode: ExecutionMode, job: Job)
    requires BatchSoFar(jobs, subs, mode) && Filed(store, jobs) && DistinctIds(subs) && |jobs| < |subs|
    requires job.id == subs[|jobs|].id && job.executionMode == mode
    requires job.name == BatchName(|jobs|) && job.payload == BatchPayload(|jobs|)
    ensures BatchSoFar(jobs + [job], subs, mode) && Filed(store[job.id := job], jobs + [job])
  {
    var t := jobs + [job];
    forall k | 0 <= k < |t| ensures t[k] == if k < |jobs| then jobs[k] else job {}
    forall k | 0 <= k < |jobs| ensures jobs[k].id != job.id {
      assert jobs[k].id == subs[k].id;
    }
  }

  /** The recordJobCompletion calls a sequential batch makes, one per job in order: the
      duration its run measured and the success of the result stored for it. */
  function BatchRecords(subs: seq<Submission>, results: map<string, JobResult>): seq<Record>
    requires forall k :: 0 <= k < |subs| ==> subs[k].id in results
  {
    seq(|subs|, k requires 0 <= k < |subs| => Record(SEQUENTIAL, subs[k].env.clock.Elapsed(), results[subs[k].id].success))
  }

  /** Storing the next job's result extends the batch's recordings by its own. */
  lemma BatchRecordsStep(subs: seq<Submission>, i: nat, results: map<string, JobResult>, r: JobResult)
    requires i < |subs| && DistinctIds(subs)
    requires forall k :: 0 <= k < i ==> subs[k].id in results
    ensures forall k :: 0 <= k <= i ==> subs[k].id in results[subs[i].id := r]
    ensures BatchRecords(subs[..i + 1], results[subs[i].id := r])
              == BatchRecords(subs[..i], results) + [Record(SEQUENTIAL, subs[i].env.clock.Elapsed(), r.success)]
  {
    var a := BatchRecords(subs[..i + 1], results[subs[i].id := r]);
    var b := BatchRecords(subs[..i], results) + [Record(SEQUENTIAL, subs[i].env.clock.Elapsed(), r.success)];
    forall k | 0 <= k < i + 1 ensures a[k] == b[k] {
      if k < i {
        assert subs[..i + 1][k] == subs[..i][k] == subs[k];
      }
    }
  }

  /** The results stored before are still stored. */
  predicate KeptResults(before: map<string, JobResult>, after: map<string, JobResult>) {
    forall id :: id in before ==> id in after && after[id] == before[id]
  }

  /** The first |jobs| jobs of a sequential batch have run: the k-th has its result
      stored under its id and went from PENDING through RUNNING to the status the result
      calls for. */
  ghost predicate RanBatch(jobs: seq<Job>, subs: seq<Submission>, results: map<string, JobResult>)
    reads jobs
  {
    && |jobs| <= |subs|
    && forall k :: 0 <= k < |jobs| ==>
         subs[k].id in results && RanTo(jobs[k], [PENDING], results[subs[k].id], subs[k].env)
  }

  /** The results and meters after a sequential batch over subs, against those from
      before it: earlier results are kept, each submission has its result stored, and
      the meters took the batch's recordings in order. */
  ghost predicate SequentialRan(subs: seq<Submission>, results: map<string, JobResult>, meters: Meters,
                                results0: map<string, JobResult>, meters0: Meters)
  {
    && (forall k :: 0 <= k < |subs| ==> subs[k].id in results)
    && KeptResults(results0, results)
    && results.Keys == results0.Keys + IdsOf(subs)
    && Total(meters0)
    && meters == Replayed(meters0, BatchRecords(subs, results))
  }

  /** A pool or async job that was handed to its executor and whose task has not run:
      PENDING since it was built, never started and never completed. */
  ghost predicate Queued(job: Job)
    reads job
  {
    && job.Valid() && job.status == PENDING && job.history == [PENDING]
    && job.startedAt == None && job.completedAt == None
  }

  /** The jobs of a pool or async batch are all queued. */
  ghost predicate WaitingBatch(jobs: seq<Job>)
    reads jobs
  {
    forall k :: 0 <= k < |jobs| ==> Queued(jobs[k])
  }

  lemma AppendTwice(p: seq<Job>, jobs: seq<Job>, job: Job)
    ensures p + jobs + [job] == p + (jobs + [job])
  {
  }

  /** The stores and meters after the first n jobs of a sequential batch, against those
      from before the batch: the pending jobs are untouched, earlier results are kept,
      each of the n jobs has its result stored, and the meters took their recordings in
      order. */
  ghost predicate RunState(subs: seq<Submission>, n: nat, pending: seq<Job>, results: map<string, JobResult>, meters: Meters,
                           pending0: seq<Job>, results0: map<string, JobResult>, meters0: Meters)
  {
    && n <= |subs|
    && pending == pending0
    && KeptResults(results0, results)
    && results.Keys == results0.Keys + IdsOf(subs[..n])
    && (forall k :: 0 <= k < n ==> subs[k].id in results)
    && Total(meters0)
    && meters == Replayed(meters0, BatchRecords(subs[..n], results))
  }

  /** Storing the next job's result and making its recording extends the state by one job. */
  lemma RunStateStep(subs: seq<Submission>, i: nat, pending: seq<Job>, results: map<string, JobResult>, meters: Meters,
                     pending0: seq<Job>, results0: map<string, JobResult>, meters0: Meters, r: JobResult, meters': Meters)
    requires RunState(subs, i, pending, results, meters, pending0, results0, meters0)
    requires i < |subs| && DistinctIds(subs) && subs[i].id !in results
    requires meters' == Recorded(meters, SEQUENTIAL, subs[i].env.clock.Elapsed(), r.success)
    ensures RunState(subs, i + 1, pending, results[subs[i].id := r], meters', pending0, results0, meters0)
  {
    IdsOfPrefix(subs, i);
    BatchRecordsStep(subs, i, results, r);
    ReplayedAppend(meters0, BatchRecords(subs[..i], results), Record(SEQUENTIAL, subs[i].env.clock.Elapsed(), r.success));
  }

  /** Once every job of the batch has run, the batch has run. */
  lemma RunStateDone(subs: seq<Submission>, pending: seq<Job>, results: map<string, JobResult>, meters: Meters,
                     pending0: seq<Job>, results0: map<string, JobResult>, meters0: Meters)
    requires RunState(subs, |subs|, pending, results, meters, pending0, results0, meters0)
    ensures pending == pending0 && SequentialRan(subs, results, meters, results0, meters0)
  {
    assert subs[..|subs|] == subs;
  }

  /** A job that waits in PENDING extends a waiting batch. */
  lemma WaitingStep(jobs: seq<Job>, job: Job)
    requires WaitingBatch(jobs) && Queued(job)
    ensures WaitingBatch(jobs + [job])
  {
    var t := jobs + [job];
    forall k | 0 <= k < |t| ensures Queued(t[k]) {
      if k < |jobs| {
        assert t[k] == jobs[k];
      }
    }
  }

  /** A job that has run extends a batch that has run. */
  lemma RanStep(jobs: seq<Job>, subs: seq<Submission>, results: map<string, JobResult>, job: Job, r: JobResult)
    requires RanBatch(jobs, subs, results) && |jobs| < |subs| && DistinctIds(subs)
    requires RanTo(job, [PENDING], r, subs[|jobs|].env)
    ensures RanBatch(jobs + [job], subs, results[subs[|jobs|].id := r])
  {
    var t := jobs + [job];
    var results' := results[subs[|jobs|].id := r];
    forall k | 0 <= k < |t|
      ensures subs[k].id in results' && RanTo(t[k], [PENDING], results'[subs[k].id], subs[k].env)
    {
      if k < |jobs| {
        assert t[k] == jobs[k];
        assert subs[k].id != subs[|jobs|].id;
      }
    }
  }

  /** The first i modes of ExecutionMode.values() have their batch: countPerMode jobs of
      that mode, built from the mode's group of submissions. */
  predicate ModesSoFar(batches: map<ExecutionMode, seq<Job>>, groups: seq<seq<Submission>>, countPerMode: int, i: nat) {
    forall k :: 0 <= k < i && k < |AllModes| && k < |groups| ==>
      && AllModes[k] in batches
      && |batches[AllModes[k]]| == BatchSize(countPerMode)
      && BatchSoFar(batches[AllModes[k]], groups[k], AllModes[k])
  }

  /** The stores and meters after the batches of the first i modes, against those from
      before: the sequential batch has run with its results stored and recorded, and
      the pool and then the async batch were queued behind the pending jobs. */
  ghost predicate ModesRan(groups: seq<seq<Submission>>, batches: map<ExecutionMode, seq<Job>>, i: nat,
                           pending: seq<Job>, results: map<string, JobResult>, meters: Meters,
                           pending0: seq<Job>, results0: map<string, JobResult>, meters0: Meters)
    requires |groups| == |AllModes|
  {
    && (i == 0 ==> pending == pending0 && results == results0 && meters == meters0)
    && (i >= 1 ==> SequentialRan(groups[0], results, meters, results0, meters0))
    && (i == 1 ==> pending == pending0)
    && (i == 2 ==> THREAD_POOL in batches && pending == pending0 + batches[THREAD_POOL])
    && (i >= 3 ==> THREAD_POOL in batches && ASYNC in batches
                   && pending == pending0 + batches[THREAD_POOL] + batches[ASYNC])
  }

  /** Every batch is made of jobs allocated since the previous state. */
  twostate predicate NewBatches(new batches: map<ExecutionMode, seq<Job>>)
  {
    forall m :: m in batches ==> fresh(batches[m])
  }

  /** A batch of new jobs extended by a new job is still made of new jobs. */
  twostate lemma NewJobsGrow(new jobs: seq<Job>, new jobs': seq<Job>)
    requires fresh(jobs) && |jobs'| == |jobs| + 1 && jobs'[..|jobs|] == jobs && fresh(jobs'[|jobs|])
    ensures fresh(jobs')
  {
    assert jobs' == jobs + [jobs'[|jobs|]];
  }

  /** Putting a batch of new jobs keeps every batch made of new jobs. */
  twostate lemma NewBatchesGrow(new batches: map<ExecutionMode, seq<Job>>, mode: ExecutionMode, new batch: seq<Job>)
    requires NewBatches(batches) && fresh(batch)
    ensures NewBatches(batches[mode := batch])
  {
  }

  /** Submitting the next mode's batch extends the stores and meters by that batch. */
  lemma ModesRanStep(groups: seq<seq<Submission>>, batches: map<ExecutionMode, seq<Job>>, i: nat,
                     pending: seq<Job>, results: map<string, JobResult>, meters: Meters,
                     pending0: seq<Job>, results0: map<string, JobResult>, meters0: Meters,
                     batch: seq<Job>, pending': seq<Job>, results': map<string, JobResult>, meters': Meters)
    requires |groups| == |AllModes| && i < |AllModes|
    requires ModesRan(groups, batches, i, pending, results, meters, pending0, results0, meters0)
    requires AllModes[i] == SEQUENTIAL ==> pending' == pending && SequentialRan(groups[i], results', meters', results, meters)
    requires AllModes[i] != SEQUENTIAL ==> pending' == pending + batch && results' == results && meters' == meters
    ensures ModesRan(groups, batches[AllModes[i] := batch], i + 1, pending', results', meters', pending0, results0, meters0)
  {
  }

  /** Putting the next mode's batch leaves the earlier modes' batches in place. */
  lemma ModesStep(batches: map<ExecutionMode, seq<Job>>, groups: seq<seq<Submission>>, countPerMode: int, i: nat, batch: seq<Job>)
    requires i < |AllModes| && i < |groups| && ModesSoFar(batches, groups, countPerMode, i)
    requires |batch| == BatchSize(countPerMode) && BatchSoFar(batch, groups[i], AllModes[i])
    ensures ModesSoFar(batches[AllModes[i] := batch], groups, countPerMode, i + 1)
  {
    forall k | 0 <= k < i ensures AllModes[k] != AllModes[i] {
      AllModesEnumerates(AllModes[i]);
    }
  }

  /** Once every mode of ExecutionMode.values() has its batch, every mode is a key. */
  lemma EveryModeHasBatch(batches: map<ExecutionMode, seq<Job>>, groups: seq<seq<Submission>>, countPerMode: int)
    requires |groups| == |AllModes| && ModesSoFar(batches, groups, countPerMode, |AllModes|)
    ensures forall m: ExecutionMode :: m in batches
  {
    forall m: ExecutionMode ensures m in batches {
      assert m == AllModes[0] || m == AllModes[1] || m == AllModes[2];
    }
  }

  class JobService {
    var jobStorage: map<string, Job>
    var resultStorage: map<string, JobResult>
    /** Jobs handed to the pool or async executor whose futures have not completed. */
    var pending: seq<Job>
    const sequential: SequentialJobExecutor
    const threadPool: ThreadPoolJobExecutor
    const async: AsyncJobExecutor
    /** The metrics service all three executors record into. */
    const metrics: MetricsService

    /** Every id the service holds in any of its stores. */
    function KnownIds(): set<string>
      reads this
    {
      Known(jobStorage, resultStorage, pending)
    }

    /** All three executors record into this service's metrics, their simulators can
        run, and no job is half-way through a run between two calls. */
    ghost predicate Wired()
      reads sequential, async, metrics
    {
      && sequential.metrics == metrics && threadPool.metrics == metrics && async.metrics == metrics
      && Ready(sequential.cpu, sequential.io) && Ready(threadPool.cpu, threadPool.io) && Ready(async.cpu, async.io)
      && metrics.Valid()
      && sequential.activeCount == 0 && async.activeCount == 0
    }

    ghost predicate Valid()
      reads this, sequential, async, metrics
    {
      && Wired()
      && StoresAgree(jobStorage, resultStorage, pending)
    }

    constructor (sequential: SequentialJobExecutor, threadPool: ThreadPoolJobExecutor, async: AsyncJobExecutor)
      requires sequential.metrics == threadPool.metrics == async.metrics && sequential.metrics.Valid()
      requires Ready(sequential.cpu, sequential.io) && Ready(threadPool.cpu, threadPool.io) && Ready(async.cpu, async.io)
      requires sequential.activeCount == 0 && async.activeCount == 0
      ensures Valid() && jobStorage == map[] && resultStorage == map[] && pending == []
      ensures this.sequential == sequential && this.threadPool == threadPool && this.async == async
    {
      jobStorage := map[];
      resultStorage := map[];
      pending := [];
      this.sequential := sequential;
      this.threadPool := threadPool;
      this.async := async;
      metrics := sequential.metrics;
    }

    /** The executor configuration that runs jobs of the given mode. */
    function ConfigOf(mode: ExecutionMode): (CpuSimulationConfig, IoSimulationConfig)
    {
      match mode
      case SEQUENTIAL => (sequential.cpu, sequential.io)
      case THREAD_POOL => (threadPool.cpu, threadPool.io)
      case ASYNC => (async.cpu, async.io)
    }

    /** submitJob: a new PENDING job is stored under its fresh id, then dispatched to the
        executor of its mode. A sequential job has run and has its result stored when the
        call returns; any other job is pending, with no result yet. */
    method SubmitJob(name: string, payload: Option<string>, mode: ExecutionMode, sub: Submission) returns (job: Job)
      requires Valid() && sub.id !in KnownIds()
      requires mode == SEQUENTIAL ==> sub.env.Valid()
      modifies this, metrics, sequential`activeCount
      ensures Valid() && fresh(job)
      ensures job.id == sub.id && job.name == name && job.payload == payload
      ensures job.executionMode == mode && job.createdAt == sub.createdAt
      ensures jobStorage == old(jobStorage)[sub.id := job]
      ensures KnownIds() == old(KnownIds()) + {sub.id}
      ensures mode == SEQUENTIAL ==>
        && sub.id in resultStorage && resultStorage == old(resultStorage)[sub.id := resultStorage[sub.id]]
        && pending == old(pending)
        && RanTo(job, [PENDING], resultStorage[sub.id], sub.env)
        && metrics.meters == Recorded(old(metrics.meters), SEQUENTIAL, sub.env.clock.Elapsed(), resultStorage[sub.id].success)
      ensures mode != SEQUENTIAL ==>
        && resultStorage == old(resultStorage) && pending == old(pending) + [job]
        && Queued(job) && metrics.meters == old(metrics.meters)
    {
      job := new Job(sub.id, name, payload, mode, sub.createdAt);
      if mode == SEQUENTIAL {
        var result := StoreAndRun(job, sub.env);
        KnownAfterRun(old(jobStorage), old(resultStorage), pending, job, result);
      } else {
        StoreAndHandOff(job);
        KnownAfterHandOff(old(jobStorage), resultStorage, old(pending), job);
      }
    }

    /** The part of submitJob after the job is built, for a sequential job: store it, run
        it to completion and store its result. */
    method StoreAndRun(job: Job, env: TaskEnv) returns (result: JobResult)
      requires Valid() && job.id !in KnownIds() && env.Valid()
      requires job.Valid() && job.history == [PENDING] && job.executionMode == SEQUENTIAL
      modifies this, metrics, sequential`activeCount, job
      ensures Valid()
      ensures result == TaskResult(job, sequential.cpu, sequential.io, env)
      ensures RanTo(job, [PENDING], result, env)
      ensures metrics.meters == Recorded(old(metrics.meters), SEQUENTIAL, env.clock.Elapsed(), result.success)
      ensures jobStorage == old(jobStorage)[job.id := job]
      ensures resultStorage == old(resultStorage)[job.id := result]
      ensures pending == old(pending)
    {
      jobStorage := jobStorage[job.id := job];
      var future := sequential.Execute(job, env);
      result := future.value.result;
      AgreeAfterRun(old(jobStorage), resultStorage, pending, result);
      resultStorage := resultStorage[job.id := result];
    }

    /** The part of submitJob after the job is built, for a pool or async job: store it
        and hand it to its executor, which leaves it pending. */
    method StoreAndHandOff(job: Job)
      requires Valid() && job.id !in KnownIds()
      requires Queued(job) && job.executionMode != SEQUENTIAL
      modifies this, job
      ensures Valid()
      ensures jobStorage == old(jobStorage)[job.id := job]
      ensures resultStorage == old(resultStorage) && pending == old(pending) + [job]
      ensures Queued(job)
    {
      jobStorage := jobStorage[job.id := job];
      var future;
      if job.executionMode == THREAD_POOL {
        future := threadPool.Execute(job);
      } else {
        future := async.Execute(job);
      }
      AgreeAfterHandOff(old(jobStorage), resultStorage, pending, job);
      pending := pending + [job];
    }

    /** The submitJob call of one step of a sequential batch: the i-th job, named
        batch-job-i with payload payload-i, is submitted and runs, and the earlier jobs
        of the batch are left as they were. */
    method RunBatchJob(subs: seq<Submission>, jobs: seq<Job>, ghost known0: set<string>) returns (job: Job)
      requires Valid() && |jobs| < |subs| && DistinctIds(subs) && IdsOf(subs) !! known0
      requires subs[|jobs|].env.Valid()
      requires BatchSoFar(jobs, subs, SEQUENTIAL) && Filed(jobStorage, jobs)
      requires KnownIds() == known0 + IdsOf(subs[..|jobs|])
      modifies this, metrics, sequential`activeCount
      ensures Valid()
      ensures BatchSoFar(jobs + [job], subs, SEQUENTIAL) && Filed(jobStorage, jobs + [job])
      ensures KnownIds() == known0 + IdsOf(subs[..|jobs| + 1])
      ensures subs[|jobs|].id !in old(resultStorage) && subs[|jobs|].id in resultStorage
      ensures resultStorage == old(resultStorage)[subs[|jobs|].id := resultStorage[subs[|jobs|].id]]
      ensures fresh(job) && pending == old(pending) && unchanged(jobs)
      ensures RanTo(job, [PENDING], resultStorage[subs[|jobs|].id], subs[|jobs|].env)
      ensures metrics.meters == Recorded(old(metrics.meters), SEQUENTIAL, subs[|jobs|].env.clock.Elapsed(), resultStorage[subs[|jobs|].id].success)
    {
      var i := |jobs|;
      KnownStep(known0, subs, i);
      IdsOfPrefix(subs, i);
      ghost var store := jobStorage;
      job := SubmitJob(BatchName(i), BatchPayload(i), SEQUENTIAL, subs[i]);
      BatchStep(store, jobs, subs, SEQUENTIAL, job);
    }

    /** One step of submitBatch's stream for a sequential batch: the batch's progress
        grows by the job that ran. */
    method SubmitRunningBatchJob(subs: seq<Submission>, jobs: seq<Job>, ghost known0: set<string>,
                                 ghost pending0: seq<Job>, ghost results0: map<string, JobResult>, ghost meters0: Meters)
      returns (job: Job)
      requires Valid() && |jobs| < |subs| && DistinctIds(subs) && IdsOf(subs) !! known0
      requires subs[|jobs|].env.Valid()
      requires BatchSoFar(jobs, subs, SEQUENTIAL) && Filed(jobStorage, jobs)
      requires KnownIds() == known0 + IdsOf(subs[..|jobs|])
      requires RanBatch(jobs, subs, resultStorage)
      requires RunState(subs, |jobs|, pending, resultStorage, metrics.meters, pending0, results0, meters0)
      modifies this, metrics, sequential`activeCount
      ensures Valid()
      ensures BatchSoFar(jobs + [job], subs, SEQUENTIAL) && Filed(jobStorage, jobs + [job])
      ensures KnownIds() == known0 + IdsOf(subs[..|jobs| + 1])
      ensures fresh(job) && RanBatch(jobs + [job], subs, resultStorage)
      ensures RunState(subs, |jobs| + 1, pending, resultStorage, metrics.meters, pending0, results0, meters0)
    {
      var i := |jobs|;
      ghost var results := resultStorage;
      job := RunBatchJob(subs, jobs, known0);
      var r := resultStorage[subs[i].id];
      RanStep(jobs, subs, results, job, r);
      RunStateStep(subs, i, pending, results, old(metrics.meters), pending0, results0, meters0, r, metrics.meters);
    }

    /** The submitJob call of one step of a pool or async batch: the i-th job is
        submitted and queued, and the earlier jobs of the batch are left as they were. */
    method QueueBatchJob(mode: ExecutionMode, subs: seq<Submission>, jobs: seq<Job>, ghost known0: set<string>) returns (job: Job)
      requires Valid() && |jobs| < |subs| && DistinctIds(subs) && IdsOf(subs) !! known0 && mode != SEQUENTIAL
      requires BatchSoFar(jobs, subs, mode) && Filed(jobStorage, jobs)
      requires KnownIds() == known0 + IdsOf(subs[..|jobs|])
      modifies this, metrics, sequential`activeCount
      ensures Valid()
      ensures BatchSoFar(jobs + [job], subs, mode) && Filed(jobStorage, jobs + [job])
      ensures KnownIds() == known0 + IdsOf(subs[..|jobs| + 1])
      ensures fresh(job) && pending == old(pending) + [job] && Queued(job) && unchanged(jobs)
      ensures resultStorage == old(resultStorage) && metrics.meters == old(metrics.meters)
    {
      var i := |jobs|;
      KnownStep(known0, subs, i);
      IdsOfPrefix(subs, i);
      ghost var store := jobStorage;
      job := SubmitJob(BatchName(i), BatchPayload(i), mode, subs[i]);
      BatchStep(store, jobs, subs, mode, job);
    }

    /** One step of submitBatch's stream for a pool or async batch: the batch waiting in
        PENDING grows by the queued job. */
    method SubmitWaitingBatchJob(mode: ExecutionMode, subs: seq<Submission>, jobs: seq<Job>, ghost known0: set<string>,
                                 ghost pending0: seq<Job>, ghost results0: map<string, JobResult>, ghost meters0: Meters)
      returns (job: Job)
      requires Valid() && |jobs| < |subs| && DistinctIds(subs) && IdsOf(subs) !! known0 && mode != SEQUENTIAL
      requires BatchSoFar(jobs, subs, mode) && Filed(jobStorage, jobs)
      requires KnownIds() == known0 + IdsOf(subs[..|jobs|])
      requires pending == pending0 + jobs && WaitingBatch(jobs)
      requires resultStorage == results0 && metrics.meters == meters0
      modifies this, metrics, sequential`activeCount
      ensures Valid()
      ensures BatchSoFar(jobs + [job], subs, mode) && Filed(jobStorage, jobs + [job])
      ensures KnownIds() == known0 + IdsOf(subs[..|jobs| + 1])
      ensures fresh(job) && pending == pending0 + (jobs + [job]) && WaitingBatch(jobs + [job])
      ensures resultStorage == results0 && metrics.meters == meters0
    {
      job := QueueBatchJob(mode, subs, jobs, known0);
      WaitingStep(jobs, job);
      AppendTwice(pending0, jobs, job);
    }

    /** One step of submitBatch's stream: the next submission is submitted with the
        batch's mode, and the batch's progress grows by its job. */
    method SubmitBatchJob(mode: ExecutionMode, subs: seq<Submission>, jobs: seq<Job>, ghost known0: set<string>,
                          ghost pending0: seq<Job>, ghost results0: map<string, JobResult>, ghost meters0: Meters)
      returns (jobs': seq<Job>)
      requires Valid() && |jobs| < |subs| && DistinctIds(subs) && IdsOf(subs) !! known0
      requires mode == SEQUENTIAL ==> subs[|jobs|].env.Valid()
      requires BatchSoFar(jobs, subs, mode) && Filed(jobStorage, jobs)
      requires KnownIds() == known0 + IdsOf(subs[..|jobs|])
      requires mode == SEQUENTIAL ==> RanBatch(jobs, subs, resultStorage)
      requires mode == SEQUENTIAL ==> RunState(subs, |jobs|, pending, resultStorage, metrics.meters, pending0, results0, meters0)
      requires mode != SEQUENTIAL ==> WaitingBatch(jobs)
      requires mode != SEQUENTIAL ==> pending == pending0 + jobs && resultStorage == results0 && metrics.meters == meters0
      modifies this, metrics, sequential`activeCount
      ensures Valid() && |jobs'| == |jobs| + 1 && jobs'[..|jobs|] == jobs && fresh(jobs'[|jobs|])
      ensures BatchSoFar(jobs', subs, mode) && Filed(jobStorage, jobs')
      ensures KnownIds() == known0 + IdsOf(subs[..|jobs'|])
      ensures mode == SEQUENTIAL ==> RanBatch(jobs', subs, resultStorage)
      ensures mode == SEQUENTIAL ==> RunState(subs, |jobs'|, pending, resultStorage, metrics.meters, pending0, results0, meters0)
      ensures mode != SEQUENTIAL ==> WaitingBatch(jobs')
      ensures mode != SEQUENTIAL ==> pending == pending0 + jobs' && resultStorage == results0 && metrics.meters == meters0
    {
      var job;
      if mode == SEQUENTIAL {
        job := SubmitRunningBatchJob(subs, jobs, known0, pending0, results0, meters0);
      } else {
        job := SubmitWaitingBatchJob(mode, subs, jobs, known0, pending0, results0, meters0);
      }
      jobs' := jobs + [job];
      assert jobs'[..|jobs|] == jobs;
    }

    /** submitBatch: count jobs, the i-th named batch-job-i with payload payload-i, each
        submitted in turn with the given mode; no jobs when count is not positive. A
        sequential batch has run job by job, each result stored and recorded; any other
        batch waits in PENDING behind the jobs already pending. */
    method SubmitBatch(count: int, mode: ExecutionMode, subs: seq<Submission>) returns (jobs: seq<Job>)
      requires Valid() && |subs| == BatchSize(count)
      requires DistinctIds(subs) && IdsOf(subs) !! KnownIds()
      requires mode == SEQUENTIAL ==> forall i :: 0 <= i < |subs| ==> subs[i].env.Valid()
      modifies this, metrics, sequential`activeCount
      ensures Valid() && |jobs| == BatchSize(count)
      ensures fresh(jobs)
      ensures BatchSoFar(jobs, subs, mode) && Filed(jobStorage, jobs)
      ensures KnownIds() == old(KnownIds()) + IdsOf(subs)
      ensures mode == SEQUENTIAL ==>
        && pending == old(pending)
        && RanBatch(jobs, subs, resultStorage)
        && SequentialRan(subs, resultStorage, metrics.meters, old(resultStorage), old(metrics.meters))
      ensures mode != SEQUENTIAL ==>
        && pending == old(pending) + jobs && WaitingBatch(jobs)
        && resultStorage == old(resultStorage) && metrics.meters == old(metrics.meters)
    {
      jobs := [];
      assert subs[..0] == [];
      assert BatchRecords([], resultStorage) == [];
      var i := 0;
      while i < |subs|
        invariant i == |jobs| <= |subs| && Valid()
        invariant fresh(jobs)
        invariant BatchSoFar(jobs, subs, mode) && Filed(jobStorage, jobs)
        invariant KnownIds() == old(KnownIds()) + IdsOf(subs[..i])
        invariant mode == SEQUENTIAL ==> RanBatch(jobs, subs, resultStorage)
        invariant mode == SEQUENTIAL ==>
          RunState(subs, i, pending, resultStorage, metrics.meters, old(pending), old(resultStorage), old(metrics.meters))
        invariant mode != SEQUENTIAL ==> WaitingBatch(jobs)
        invariant mode != SEQUENTIAL ==>
          && pending == old(pending) + jobs
          && resultStorage == old(resultStorage) && metrics.meters == old(metrics.meters)
      {
        ghost var before := jobs;
        jobs := SubmitBatchJob(mode, subs, jobs, old(KnownIds()), old(pending), old(resultStorage), old(metrics.meters));
        NewJobsGrow(before, jobs);
        i := i + 1;
      }
      assert subs[..i] == subs;
      if mode == SEQUENTIAL {
        RunStateDone(subs, pending, resultStorage, metrics.meters, old(pending), old(resultStorage), old(metrics.meters));
      }
    }

    /** One round of submitBatchAllModes' loop over ExecutionMode.values(): the i-th mode's
        batch is submitted from the i-th group and put under its mode. */
    method SubmitModeBatch(countPerMode: int, groups: seq<seq<Submission>>, i: nat, batches: map<ExecutionMode, seq<Job>>,
                           ghost known0: set<string>, ghost pending0: seq<Job>, ghost results0: map<string, JobResult>, ghost meters0: Meters)
      returns (batches': map<ExecutionMode, seq<Job>>)
      requires Valid() && |groups| == |AllModes| && i < |AllModes|
      requires forall k :: 0 <= k < |groups| ==>
        |groups[k]| == BatchSize(countPerMode) && DistinctIds(groups[k]) && IdsOf(groups[k]) !! known0
      requires forall k, l :: 0 <= k < l < |groups| ==> IdsOf(groups[k]) !! IdsOf(groups[l])
      requires forall j :: 0 <= j < |groups[0]| ==> groups[0][j].env.Valid()
      requires ModesSoFar(batches, groups, countPerMode, i)
      requires KnownIds() == known0 + GroupIds(groups[..i])
      requires ModesRan(groups, batches, i, pending, resultStorage, metrics.meters, pending0, results0, meters0)
      modifies this, metrics, sequential`activeCount
      ensures Valid() && ModesSoFar(batches', groups, countPerMode, i + 1)
      ensures KnownIds() == known0 + GroupIds(groups[..i + 1])
      ensures ModesRan(groups, batches', i + 1, pending, resultStorage, metrics.meters, pending0, results0, meters0)
      ensures AllModes[i] in batches' && batches' == batches[AllModes[i] := batches'[AllModes[i]]]
      ensures fresh(batches'[AllModes[i]])
      ensures AllModes[i] != SEQUENTIAL ==> WaitingBatch(batches'[AllModes[i]])
    {
      GroupStep(known0, groups, i);
      var mode := AllModes[i];
      ghost var pending1, results1, meters1 := pending, resultStorage, metrics.meters;
      var batch := SubmitBatch(countPerMode, mode, groups[i]);
      ModesStep(batches, groups, countPerMode, i, batch);
      ModesRanStep(groups, batches, i, pending1, results1, meters1, pending0, results0, meters0,
                   batch, pending, resultStorage, metrics.meters);
      batches' := batches[mode := batch];
    }

    /** submitBatchAllModes: one batch of countPerMode jobs for each mode, in the order of
        ExecutionMode.values(); the k-th batch takes the k-th group of submissions. The
        sequential batch has run first, its results stored and recorded in order; the
        pool batch and then the async batch are queued behind the jobs already pending.
        Every batch is made of new jobs, and the async batch, submitted last, is queued. */
    method SubmitBatchAllModes(countPerMode: int, groups: seq<seq<Submission>>) returns (batches: map<ExecutionMode, seq<Job>>)
      requires Valid() && |groups| == |AllModes|
      requires forall k :: 0 <= k < |groups| ==>
        |groups[k]| == BatchSize(countPerMode) && DistinctIds(groups[k]) && IdsOf(groups[k]) !! KnownIds()
      requires forall k, l :: 0 <= k < l < |groups| ==> IdsOf(groups[k]) !! IdsOf(groups[l])
      requires forall i :: 0 <= i < |groups[0]| ==> groups[0][i].env.Valid()
      modifies this, metrics, sequential`activeCount
      ensures Valid() && forall m: ExecutionMode :: m in batches
      ensures ModesSoFar(batches, groups, countPerMode, |AllModes|)
      ensures KnownIds() == old(KnownIds()) + GroupIds(groups)
      ensures SequentialRan(groups[0], resultStorage, metrics.meters, old(resultStorage), old(metrics.meters))
      ensures pending == old(pending) + batches[THREAD_POOL] + batches[ASYNC]
      ensures NewBatches(batches)
      ensures WaitingBatch(batches[ASYNC])
    {
      batches := map[];
      var i := 0;
      while i < |AllModes|
        invariant i <= |AllModes| && Valid() && ModesSoFar(batches, groups, countPerMode, i)
        invariant KnownIds() == old(KnownIds()) + GroupIds(groups[..i])
        invariant ModesRan(groups, batches, i, pending, resultStorage, metrics.meters,
                           old(pending), old(resultStorage), old(metrics.meters))
        invariant NewBatches(batches)
        invariant i == |AllModes| ==> WaitingBatch(batches[ASYNC])
      {
        ghost var before := batches;
        batches := SubmitModeBatch(countPerMode, groups, i, batches, old(KnownIds()), old(pending), old(resultStorage), old(metrics.meters));
        NewBatchesGrow(before, AllModes[i], batches[AllModes[i]]);
        i := i + 1;
      }
      assert groups[..i] == groups;
      EveryModeHasBatch(batches, groups, countPerMode);
    }

    /** The thenAccept callback of a pool or async job: its task runs on the executor of
        its mode, and the result is stored under the job's id. */
    method CompleteInFlight(k: nat, env: TaskEnv) returns (result: JobResult)
      requires Valid() && k < |pending| && env.Valid() && pending[k].Valid()
      modifies this, metrics, pending[k], async`activeCount
      ensures Valid()
      ensures var job := old(pending[k]);
        && result == TaskResult(job, ConfigOf(job.executionMode).0, ConfigOf(job.executionMode).1, env)
        && RanTo(job, old(pending[k].history), result, env)
        && pending == old(pending[..k] + pending[k + 1..])
        && jobStorage == old(jobStorage)
        && resultStorage == old(resultStorage)[job.id := result]
        && metrics.meters == Recorded(old(metrics.meters), job.executionMode, env.clock.Elapsed(), result.success)
    {
      var job := pending[k];
      if job.executionMode == THREAD_POOL {
        result := threadPool.ExecuteJob(job, env);
      } else {
        result := async.ExecuteJob(job, env);
      }
      AgreeAfterCompletion(jobStorage, resultStorage, pending, k, result);
      pending := pending[..k] + pending[k + 1..];
      resultStorage := resultStorage[job.id := result];
    }

    /** submitJob for a pool job that the pool rejects: with every thread busy and the
        work queue full, CallerRunsPolicy runs the task in the submitting thread inside
        execute, so the future is complete and the result is stored when submitJob
        returns. The job is stored, runs along the lifecycle, and its task result is
        stored and recorded; nothing is left pending. */
    method SubmitJobRunByCaller(name: string, payload: Option<string>, sub: Submission) returns (job: Job, result: JobResult)
      requires Valid() && sub.id !in KnownIds() && sub.env.Valid()
      modifies this, metrics, sequential`activeCount, async`activeCount
      ensures Valid() && fresh(job)
      ensures job.id == sub.id && job.name == name && job.payload == payload
      ensures job.executionMode == THREAD_POOL && job.createdAt == sub.createdAt
      ensures jobStorage == old(jobStorage)[sub.id := job]
      ensures resultStorage == old(resultStorage)[sub.id := result] && pending == old(pending)
      ensures KnownIds() == old(KnownIds()) + {sub.id}
      ensures result == TaskResult(job, threadPool.cpu, threadPool.io, sub.env)
      ensures RanTo(job, [PENDING], result, sub.env)
      ensures metrics.meters == Recorded(old(metrics.meters), THREAD_POOL, sub.env.clock.Elapsed(), result.success)
    {
      job := SubmitJob(name, payload, THREAD_POOL, sub);
      var k := |pending| - 1;
      assert pending[..k] == old(pending) && pending[k + 1..] == [];
      result := CompleteInFlight(k, sub.env);
    }

    /** A job whose future has not completed has no result stored under its id. */
    lemma PendingHasNoResult(k: nat)
      requires Valid() && k < |pending|
      ensures GetJobResult(pending[k].id) == None
      ensures pending[k].id in jobStorage ==> GetJob(pending[k].id) == Some(pending[k])
    {
    }

    /** getJob: the job stored under the id, if any. */
    function GetJob(id: string): (r: Option<Job>)
      reads this
      ensures r.Some? <==> id in jobStorage
      ensures r.Some? ==> r.value == jobStorage[id]
    {
      if id in jobStorage then Some(jobStorage[id]) else None
    }

    /** getJobStatus: the stored job's status, or nothing when no job has that id. */
    function GetJobStatus(id: string): (r: Option<JobStatus>)
      reads this, jobStorage.Values
      ensures r.Some? <==> GetJob(id).Some?
      ensures r.Some? ==> r.value == GetJob(id).value.status
    {
      if id in jobStorage then Some(jobStorage[id].status) else None
    }

    /** getJobResult: the result stored under the id, if any. */
    function GetJobResult(id: string): (r: Option<JobResult>)
      reads this
      ensures r.Some? <==> id in resultStorage
      ensures r.Some? ==> r.value == resultStorage[id]
    {
      if id in resultStorage then Some(resultStorage[id]) else None
    }

    /** getJobsByStatus: exactly the stored jobs with that status. */
    function GetJobsByStatus(status: JobStatus): (r: set<Job>)
      reads this, jobStorage.Values
      ensures r <= jobStorage.Values
      ensures forall j :: j in jobStorage.Values ==> (j in r <==> j.status == status)
    {
      set j | j in jobStorage.Values && j.status == status
    }

    /** getJobsByMode: exactly the stored jobs with that execution mode. */
    function GetJobsByMode(mode: ExecutionMode): (r: set<Job>)
      reads this
      ensures r <= jobStorage.Values
      ensures forall j :: j in jobStorage.Values ==> (j in r <==> j.executionMode == mode)
    {
      set j | j in jobStorage.Values && j.executionMode == mode
    }

    /** getActiveJobCounts: one entry per mode, each the active count of that mode's
        executor; the pool reports its own thread count, given as poolActive. */
    function GetActiveJobCounts(poolActive: int): (counts: map<ExecutionMode, int>)
      reads this, sequential, async, metrics
      ensures counts.Keys == {SEQUENTIAL, THREAD_POOL, ASYNC}
      ensures Valid() ==> counts[SEQUENTIAL] == 0 && counts[ASYNC] == 0
      ensures counts[SEQUENTIAL] == sequential.GetActiveCount()
      ensures counts[THREAD_POOL] == poolActive
      ensures counts[ASYNC] == async.GetActiveCount()
    {
      map[SEQUENTIAL := sequential.GetActiveCount(), THREAD_POOL := poolActive, ASYNC := async.GetActiveCount()]
    }

    /** clearAll: both stores are empty afterwards; tasks still pending are unaffected. */
    method ClearAll()
      requires Valid()
      modifies this`jobStorage, this`resultStorage
      ensures Valid() && jobStorage == map[] && resultStorage == map[]
    {
      jobStorage := map[];
      resultStorage := map[];
    }
  }
}
