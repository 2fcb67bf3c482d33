/** JobStatus and the lifecycle its documentation draws:
    PENDING -> RUNNING -> COMPLETED, and RUNNING -> FAILED. */
module JobStatuses {

  datatype JobStatus = PENDING | RUNNING | COMPLETED | FAILED

  /** The edges of the lifecycle diagram. */
  predicate CanTransition(from: JobStatus, to: JobStatus) {
    || (from == PENDING && to == RUNNING)
    || (from == RUNNING && (to == COMPLETED || to == FAILED))
  }

  predicate IsTerminal(s: JobStatus) {
    s == COMPLETED || s == FAILED
  }

  /** Position of a status along the lifecycle; every edge climbs one step. */
  function Stage(s: JobStatus): (r: nat)
    ensures r <= 2
  {
    match s
    case PENDING => 0
    case RUNNING => 1
    case COMPLETED => 2
    case FAILED => 2
  }

  /** A sequence of statuses a job has taken: it starts in PENDING and each step is an edge. */
  predicate IsLifecyclePath(t: seq<JobStatus>) {
    && |t| > 0
    && t[0] == PENDING
    && forall k :: 0 < k < |t| ==> CanTransition(t[k - 1], t[k])
  }

  /** Terminal statuses have no outgoing edge, and no edge enters PENDING or
      leaves a status for itself. */
  lemma EdgesOfTheDiagram(a: JobStatus, b: JobStatus)
    ensures IsTerminal(a) ==> !CanTransition(a, b)
    ensures !CanTransition(a, PENDING)
    ensures !CanTransition(a, a)
    ensures CanTransition(a, b) ==> Stage(b) == Stage(a) + 1
  {
  }

  /** Along a lifecycle path the stage strictly increases. */
  lemma {:induction false} StageIncreasesAlongPath(t: seq<JobStatus>, i: nat, j: nat)
    requires IsLifecyclePath(t)
    requires i < j < |t|
    ensures Stage(t[i]) + (j - i) == Stage(t[j])
    decreases j - i
  {
    assert CanTransition(t[j - 1], t[j]);
    if i < j - 1 {
      StageIncreasesAlongPath(t, i, j - 1);
    }
  }

  /** The relation is acyclic: no status is ever revisited along a lifecycle path. */
  lemma NoStatusRevisited(t: seq<JobStatus>)
    requires IsLifecyclePath(t)
    ensures forall i, j :: 0 <= i < j < |t| ==> t[i] != t[j]
  {
    forall i, j | 0 <= i < j < |t|
      ensures t[i] != t[j]
    {
      StageIncreasesAlongPath(t, i, j);
    }
  }

  /** The only lifecycle paths are the prefixes of PENDING, RUNNING, COMPLETED | FAILED. */
  lemma LifecyclePathsEnumerated(t: seq<JobStatus>)
    requires IsLifecyclePath(t)
    ensures t in {[PENDING], [PENDING, RUNNING], [PENDING, RUNNING, COMPLETED], [PENDING, RUNNING, FAILED]}
  {
    if |t| > 3 {
      StageIncreasesAlongPath(t, 0, 3);
    }
    if |t| == 1 {
      assert t == [PENDING];
    } else if |t| == 2 {
      assert CanTransition(t[0], t[1]);
      assert t == [PENDING, RUNNING];
    } else {
      assert CanTransition(t[0], t[1]);
      assert CanTransition(t[1], t[2]);
      assert t == [PENDING, RUNNING, t[2]];
    }
  }
}
