/** MetricsService: per-mode execution timers, completed and failed counters, and active
    gauges. Micrometer's meters are reduced to the numbers they hold: a counter is a count,
    a timer is its sample count and the total of its samples, a gauge is an int. A
    Micrometer timer ignores a negative duration: recording one adds no sample, while the
    counter of the outcome still moves. The four
    EnumMaps share their key set (every mode), so they are held as one map from a mode to
    that mode's meters. */
module Metrics {
  import opened ExecutionModes

  /** The meters registered for one mode. */
  datatype ModeMeters = ModeMeters(completed: nat, failed: nat, timerCount: nat, timerTotal: nat, active: int)
  {
    /** Every timer sample is one completion or one failure, and every completion or
        failure added a sample. */
    predicate Balanced() {
      completed + failed == timerCount
    }

    /** Every timer sample is one completion or one failure; an outcome recorded with a
        negative duration has no sample. */
    predicate Counted() {
      timerCount <= completed + failed
    }
  }

  /** A freshly registered timer, two fresh counters and a gauge at zero. */
  const Fresh := ModeMeters(0, 0, 0, 0, 0)

  type Meters = map<ExecutionMode, ModeMeters>

  /** Every mode has its meters registered. */
  predicate Total(s: Meters) {
    forall m: ExecutionMode :: m in s
  }

  predicate Balanced(s: Meters) {
    Total(s) && forall m: ExecutionMode :: s[m].Balanced()
  }

  predicate Counted(s: Meters) {
    Total(s) && forall m: ExecutionMode :: s[m].Counted()
  }

  /** Fresh meters for each mode in ms. */
  function FreshFor(ms: seq<ExecutionMode>): (r: Meters)
    ensures forall m :: m in r <==> m in ms
    ensures forall m :: m in r ==> r[m] == Fresh
  {
    map m | m in ms :: Fresh
  }

  /** The meters as initializeMetrics registers them, and as resetMetrics leaves them. */
  function Initial(): Meters {
    map[SEQUENTIAL := Fresh, THREAD_POOL := Fresh, ASYNC := Fresh]
  }

  /** Initially every mode is registered with a zero timer, zero counters and a zero
      gauge. */
  lemma InitialIsAllFresh()
    ensures forall m: ExecutionMode :: m in Initial() && Initial()[m] == Fresh
  {
    var init := Initial();
    forall m: ExecutionMode ensures m in init && init[m] == Fresh {
      match m
      case SEQUENTIAL =>
      case THREAD_POOL =>
      case ASYNC =>
    }
  }

  lemma InitialIsBalanced()
    ensures Balanced(Initial()) && Counted(Initial())
  {
    InitialIsAllFresh();
  }

  /** Meters in which every mode is fresh are the initial ones. */
  lemma AllFreshIsInitial(s: Meters)
    requires forall m: ExecutionMode :: m in s && s[m] == Fresh
    ensures s == Initial()
  {
    var init := Initial();
    InitialIsAllFresh();
    forall m | m in s ensures m in init && s[m] == init[m] {
    }
    assert SEQUENTIAL in s && THREAD_POOL in s && ASYNC in s;
  }

  /** The timer of one mode after Timer.record(d): one more sample of d, or no change for
      a negative d. */
  function Sampled(mm: ModeMeters, d: int): (r: ModeMeters)
    ensures d >= 0 ==> r.timerCount == mm.timerCount + 1 && r.timerTotal == mm.timerTotal + d
    ensures d < 0 ==> r.timerCount == mm.timerCount && r.timerTotal == mm.timerTotal
    ensures r.completed == mm.completed && r.failed == mm.failed && r.active == mm.active
  {
    if d >= 0 then mm.(timerCount := mm.timerCount + 1, timerTotal := mm.timerTotal + d) else mm
  }

  /** recordJobCompletion(m, d, success): one timer sample of d for mode m unless d is
      negative, and one more completed job if success, one more failed job otherwise; no
      other mode changes. A negative duration breaks the balance of counters and timer. */
  function Recorded(s: Meters, m: ExecutionMode, d: int, success: bool): (r: Meters)
    requires Total(s)
    ensures Total(r) && forall m' :: m' != m ==> r[m'] == s[m']
    ensures d >= 0 ==> r[m].timerCount == s[m].timerCount + 1 && r[m].timerTotal == s[m].timerTotal + d
    ensures d < 0 ==> r[m].timerCount == s[m].timerCount && r[m].timerTotal == s[m].timerTotal
    ensures r[m].active == s[m].active
    ensures success ==> r[m].completed == s[m].completed + 1 && r[m].failed == s[m].failed
    ensures !success ==> r[m].failed == s[m].failed + 1 && r[m].completed == s[m].completed
    ensures Counted(s) ==> Counted(r)
    ensures Balanced(s) ==> (Balanced(r) <==> d >= 0)
  {
    var mm := Sampled(s[m], d);
    s[m := mm.(completed := if success then mm.completed + 1 else mm.completed,
               failed := if success then mm.failed else mm.failed + 1)]
  }

  /** incrementActive(m) (delta 1) and decrementActive(m) (delta -1): the gauge of m moves
      by delta and nothing else changes. The gauge has no lower bound. */
  function Shifted(s: Meters, m: ExecutionMode, delta: int): (r: Meters)
    requires Total(s)
    ensures Total(r) && forall m' :: m' != m ==> r[m'] == s[m']
    ensures r[m] == s[m].(active := s[m].active + delta)
    ensures Balanced(s) ==> Balanced(r)
    ensures Counted(s) ==> Counted(r)
  {
    s[m := s[m].(active := s[m].active + delta)]
  }

  /** Raising a gauge and lowering it again, with one recording of that mode in between,
      leaves the gauge where it was: an executor's increment and its finally-decrement
      net to zero around the one recording. */
  lemma GaugeNetsToZero(s: Meters, m: ExecutionMode, d: int, success: bool)
    requires Total(s)
    ensures Shifted(Shifted(s, m, 1), m, -1) == s
    ensures Shifted(Recorded(Shifted(s, m, 1), m, d, success), m, -1) == Recorded(s, m, d, success)
  {
    var up := Shifted(s, m, 1);
    assert Shifted(up, m, -1)[m] == s[m];
    var netted, direct := Shifted(Recorded(up, m, d, success), m, -1), Recorded(s, m, d, success);
    assert netted[m] == direct[m];
  }

  /** One recordJobCompletion call: the mode, the duration and the success flag. */
  datatype Record = Record(mode: ExecutionMode, duration: int, success: bool)

  /** The meters after the given recordings, in order. */
  function Replayed(s: Meters, rs: seq<Record>): (r: Meters)
    requires Total(s)
    ensures Total(r)
    decreases |rs|
  {
    if rs == [] then s
    else Replayed(Recorded(s, rs[0].mode, rs[0].duration, rs[0].success), rs[1..])
  }

  /** How many of the recordings are of mode m with the given success flag. */
  function CountOf(rs: seq<Record>, m: ExecutionMode, success: bool): nat {
    if rs == [] then 0
    else (if rs[0].mode == m && rs[0].success == success then 1 else 0) + CountOf(rs[1..], m, success)
  }

  /** How many of the recordings are of mode m with a duration the timer keeps. */
  function SamplesOf(rs: seq<Record>, m: ExecutionMode): nat {
    if rs == [] then 0 else (if rs[0].mode == m && rs[0].duration >= 0 then 1 else 0) + SamplesOf(rs[1..], m)
  }

  /** How many of the recordings are of mode m with a negative duration. */
  function DroppedOf(rs: seq<Record>, m: ExecutionMode): nat {
    if rs == [] then 0 else (if rs[0].mode == m && rs[0].duration < 0 then 1 else 0) + DroppedOf(rs[1..], m)
  }

  /** Whatever the recordings, each mode's counters grow by exactly its successful and
      failed recordings, its timer by one sample per recording with a non-negative
      duration, and its gauge not at all. From fresh meters, completed + failed ==
      totalExecutions holds exactly when no recording of the mode had a negative
      duration. */
  lemma {:induction false} ReplayedCounts(s: Meters, rs: seq<Record>, m: ExecutionMode)
    requires Total(s)
    ensures Replayed(s, rs)[m].completed == s[m].completed + CountOf(rs, m, true)
    ensures Replayed(s, rs)[m].failed == s[m].failed + CountOf(rs, m, false)
    ensures Replayed(s, rs)[m].timerCount == s[m].timerCount + SamplesOf(rs, m)
    ensures Replayed(s, rs)[m].active == s[m].active
    ensures CountOf(rs, m, true) + CountOf(rs, m, false) == SamplesOf(rs, m) + DroppedOf(rs, m)
    decreases |rs|
  {
    if rs != [] {
      ReplayedCounts(Recorded(s, rs[0].mode, rs[0].duration, rs[0].success), rs[1..], m);
    }
  }

  /** From the initial meters, a mode's completed + failed equals its timer count exactly
      when none of its recordings had a negative duration. */
  lemma BalancedIffNoneDropped(rs: seq<Record>, m: ExecutionMode)
    ensures Total(Initial())
    ensures Replayed(Initial(), rs)[m].Balanced() <==> DroppedOf(rs, m) == 0
  {
    InitialIsAllFresh();
    ReplayedCounts(Initial(), rs, m);
  }

  /** One recording more at the end is one Recorded step more. */
  lemma {:induction false} ReplayedAppend(s: Meters, rs: seq<Record>, r: Record)
    requires Total(s)
    ensures Replayed(s, rs + [r]) == Recorded(Replayed(s, rs), r.mode, r.duration, r.success)
    decreases |rs|
  {
    if rs == [] {
      assert [r][1..] == [];
    } else {
      assert (rs + [r])[1..] == rs[1..] + [r];
      ReplayedAppend(Recorded(s, rs[0].mode, rs[0].duration, rs[0].success), rs[1..], r);
    }
  }

  /** Statistics for a single execution mode; the maximum and the prose description are
      not modelled. The average is the timer's mean in milliseconds, 0 with no samples. */
  datatype ModeStats = ModeStats(
    completedCount: nat,
    failedCount: nat,
    activeCount: int,
    avgExecutionTimeMs: real,
    totalExecutions: nat)

  /** The statistics getStats reports for one mode's meters. */
  function StatsOf(mm: ModeMeters): (st: ModeStats)
    ensures st.completedCount == mm.completed && st.failedCount == mm.failed
    ensures st.activeCount == mm.active && st.totalExecutions == mm.timerCount
    ensures st.totalExecutions == 0 ==> st.avgExecutionTimeMs == 0.0
    ensures st.totalExecutions > 0 ==>
              st.avgExecutionTimeMs * (st.totalExecutions as real) * 1000000.0 == mm.timerTotal as real
    ensures mm.Balanced() ==> st.completedCount + st.failedCount == st.totalExecutions
    ensures mm.Counted() ==> st.completedCount + st.failedCount >= st.totalExecutions
  {
    var count := mm.timerCount;
    ModeStats(mm.completed, mm.failed, mm.active,
              if count > 0 then mm.timerTotal as real / count as real / 1000000.0 else 0.0,
              count)
  }

  class MetricsService {
    /** The timer, the two counters and the active gauge of each mode. */
    var meters: Meters

    ghost predicate Valid()
      reads this
    {
      Counted(meters)
    }

    /** initializeMetrics: every mode gets a zero timer, zero counters and a zero gauge. */
    constructor ()
      ensures Valid() && meters == Initial()
    {
      meters := map[];
      new;
      var i := 0;
      while i < |AllModes|
        invariant 0 <= i <= |AllModes|
        invariant meters == FreshFor(AllModes[..i])
      {
        assert AllModes[..i + 1] == AllModes[..i] + [AllModes[i]];
        meters := meters[AllModes[i] := Fresh];
        i := i + 1;
      }
      assert AllModes[..i] == AllModes;
      AllModesListed();
      AllFreshIsInitial(meters);
    }

    method RecordJobCompletion(mode: ExecutionMode, executionTime: int, success: bool)
      requires Valid()
      modifies this
      ensures Valid() && meters == Recorded(old(meters), mode, executionTime, success)
    {
      var mm := meters[mode];
      if executionTime >= 0 {
        mm := mm.(timerCount := mm.timerCount + 1, timerTotal := mm.timerTotal + executionTime);
      }
      if success {
        mm := mm.(completed := mm.completed + 1);
      } else {
        mm := mm.(failed := mm.failed + 1);
      }
      meters := meters[mode := mm];
    }

    method IncrementActive(mode: ExecutionMode)
      requires Valid()
      modifies this
      ensures Valid() && meters == Shifted(old(meters), mode, 1)
    {
      meters := meters[mode := meters[mode].(active := meters[mode].active + 1)];
    }

    method DecrementActive(mode: ExecutionMode)
      requires Valid()
      modifies this
      ensures Valid() && meters == Shifted(old(meters), mode, -1)
    {
      meters := meters[mode := meters[mode].(active := meters[mode].active - 1)];
    }

    /** resetMetrics: mode by mode, a fresh timer and fresh counters and a zeroed gauge. */
    method ResetMetrics()
      requires Valid()
      modifies this
      ensures Valid() && meters == Initial()
    {
      AllModesListed();
      var i := 0;
      while i < |AllModes|
        invariant 0 <= i <= |AllModes|
        invariant Total(meters)
        invariant forall m :: m in AllModes[..i] ==> meters[m] == Fresh
      {
        assert AllModes[..i + 1] == AllModes[..i] + [AllModes[i]];
        meters := meters[AllModes[i] := Fresh];
        i := i + 1;
      }
      assert AllModes[..i] == AllModes;
      AllFreshIsInitial(meters);
    }

    /** getStats: one entry per mode, keyed by the mode's name. */
    method GetStats() returns (stats: map<string, ModeStats>)
      requires Valid()
      ensures forall key :: key in stats <==> exists m :: key == Name(m)
      ensures forall m :: Name(m) in stats && stats[Name(m)] == StatsOf(meters[m])
      ensures forall m :: stats[Name(m)].completedCount + stats[Name(m)].failedCount >= stats[Name(m)].totalExecutions
      ensures forall m :: meters[m].Balanced() ==>
                stats[Name(m)].completedCount + stats[Name(m)].failedCount == stats[Name(m)].totalExecutions
    {
      AllModesListed();
      stats := map[];
      var i := 0;
      while i < |AllModes|
        invariant 0 <= i <= |AllModes|
        invariant forall key :: key in stats <==> exists m :: m in AllModes[..i] && key == Name(m)
        invariant forall m :: m in AllModes[..i] ==> stats[Name(m)] == StatsOf(meters[m])
      {
        var mode := AllModes[i];
        assert AllModes[..i + 1] == AllModes[..i] + [mode];
        AllModesEnumerates(mode);
        stats := stats[Name(mode) := StatsOf(meters[mode])];
        i := i + 1;
      }
      assert AllModes[..i] == AllModes;
    }
  }
}
