/** MetricsResponse: the per-mode statistics together with a summary across the modes,
    the three totals and the mode with the lowest average execution time. */
module MetricsResponses {
  import opened Wrappers
  import opened Metrics

  datatype Summary = Summary(totalCompleted: int, totalFailed: int, totalActive: int, fastestMode: string)

  /** The JVM section is not modelled; the response keeps the statistics and the summary. */
  datatype MetricsResponse = MetricsResponse(modeStats: map<string, ModeStats>, summary: Summary)

  const NoFastestMode: string := "N/A"

  /** The statistic a stream sum adds up. */
  datatype Column = Completed | Failed | Active | Executions

  function Cell(st: ModeStats, c: Column): int {
    match c
    case Completed => st.completedCount
    case Failed => st.failedCount
    case Active => st.activeCount
    case Executions => st.totalExecutions
  }

  /** The keys of the map in the order its entry set is iterated: each key exactly once. */
  predicate Enumerates(stats: map<string, ModeStats>, order: seq<string>) {
    && (forall k :: k in stats ==> k in order)
    && Listed(stats, order)
    && (forall i, j :: 0 <= i < j < |order| ==> order[i] != order[j])
  }

  /** Every key visited is a key of the map. */
  predicate Listed(stats: map<string, ModeStats>, order: seq<string>) {
    forall i :: 0 <= i < |order| ==> order[i] in stats
  }

  /** The sum of one column over the entries, in iteration order. */
  function Total(stats: map<string, ModeStats>, order: seq<string>, c: Column): int
    requires Listed(stats, order)
  {
    if order == [] then 0
    else Total(stats, order[..|order| - 1], c) + Cell(stats[order[|order| - 1]], c)
  }

  /** Taking one entry out of the iteration takes its cell out of the sum. */
  lemma {:induction false} TotalWithout(stats: map<string, ModeStats>, order: seq<string>, c: Column, j: nat)
    requires Listed(stats, order) && j < |order|
    ensures Listed(stats, order[..j] + order[j + 1..])
    ensures Total(stats, order, c) == Total(stats, order[..j] + order[j + 1..], c) + Cell(stats[order[j]], c)
    decreases |order|
  {
    var rest := order[..j] + order[j + 1..];
    if j < |order| - 1 {
      var init := order[..|order| - 1];
      TotalWithout(stats, init, c, j);
      assert init[..j] + init[j + 1..] == rest[..|rest| - 1];
    } else {
      assert rest == order[..|order| - 1];
    }
  }

  /** A sum does not depend on the order in which the map's entries are visited. */
  lemma {:induction false} TotalOrderFree(stats: map<string, ModeStats>, order: seq<string>, other: seq<string>, c: Column)
    requires Listed(stats, order) && multiset(order) == multiset(other)
    ensures Listed(stats, other)
    ensures Total(stats, order, c) == Total(stats, other, c)
    decreases |order|
  {
    forall i | 0 <= i < |other| ensures other[i] in stats {
      assert other[i] in multiset(order);
    }
    if order != [] {
      var init, last := order[..|order| - 1], order[|order| - 1];
      var j := TakeOut(order, other);
      var rest := other[..j] + other[j + 1..];
      TotalWithout(stats, other, c, j);
      TotalOrderFree(stats, init, rest, c);
    }
  }

  /** The last element of a sequence sits somewhere in any rearrangement of it, and what
      is left on each side is again a rearrangement. */
  lemma TakeOut(order: seq<string>, other: seq<string>) returns (j: nat)
    requires order != [] && multiset(order) == multiset(other)
    ensures j < |other| && other[j] == order[|order| - 1]
    ensures multiset(order[..|order| - 1]) == multiset(other[..j] + other[j + 1..])
  {
    var n := |order| - 1;
    assert order[n] in multiset(other);
    j :| 0 <= j < |other| && other[j] == order[n];
    Split(order, n);
    Split(other, j);
    assert order[n + 1..] == [];
    var a, b := multiset(order[..n]), multiset(other[..j] + other[j + 1..]);
    forall x ensures a[x] == b[x] {
      assert multiset(order)[x] == multiset(other)[x];
    }
  }

  /** Splitting a sequence around one position splits its multiset the same way. */
  lemma Split(s: seq<string>, j: nat)
    requires j < |s|
    ensures multiset(s) == multiset(s[..j] + s[j + 1..]) + multiset{s[j]}
    ensures multiset(s[..j] + s[j + 1..]) == multiset(s[..j]) + multiset(s[j + 1..])
  {
    assert s == s[..j] + [s[j]] + s[j + 1..];
  }

  /** When every entry's counters add up to its executions, the two totals add up to the
      total executions. */
  lemma {:induction false} TotalsCountEveryExecution(stats: map<string, ModeStats>, order: seq<string>)
    requires Listed(stats, order)
    requires forall k :: k in stats ==> stats[k].completedCount + stats[k].failedCount == stats[k].totalExecutions
    ensures Total(stats, order, Completed) + Total(stats, order, Failed) == Total(stats, order, Executions)
  {
    if order != [] {
      TotalsCountEveryExecution(stats, order[..|order| - 1]);
    }
  }

  /** When no entry's counters fall short of its executions, neither do the totals: a
      negative duration is counted but not timed, so the counters can only run ahead. */
  lemma {:induction false} TotalsCoverEveryExecution(stats: map<string, ModeStats>, order: seq<string>)
    requires Listed(stats, order)
    requires forall k :: k in stats ==> stats[k].completedCount + stats[k].failedCount >= stats[k].totalExecutions
    ensures Total(stats, order, Completed) + Total(stats, order, Failed) >= Total(stats, order, Executions)
  {
    if order != [] {
      TotalsCoverEveryExecution(stats, order[..|order| - 1]);
    }
  }

  /** The position of the entry Stream.min picks among those with executions: a running
      minimum that keeps the earlier entry when the averages are equal, or None when no
      entry has executions. */
  function FastestIndex(stats: map<string, ModeStats>, order: seq<string>): (r: Option<nat>)
    requires Listed(stats, order)
    ensures r.None? <==> forall i :: 0 <= i < |order| ==> stats[order[i]].totalExecutions == 0
    ensures r.Some? ==> r.value < |order| && stats[order[r.value]].totalExecutions > 0
    ensures r.Some? ==> forall i :: 0 <= i < |order| && stats[order[i]].totalExecutions > 0 ==>
              stats[order[r.value]].avgExecutionTimeMs <= stats[order[i]].avgExecutionTimeMs
    ensures r.Some? ==> forall i :: 0 <= i < r.value && stats[order[i]].totalExecutions > 0 ==>
              stats[order[r.value]].avgExecutionTimeMs < stats[order[i]].avgExecutionTimeMs
  {
    if order == [] then None
    else
      var n := |order| - 1;
      var best := FastestIndex(stats, order[..n]);
      assert forall i :: 0 <= i < n ==> order[..n][i] == order[i];
      if stats[order[n]].totalExecutions == 0 then best
      else if best.None? then Some(n)
      else if stats[order[best.value]].avgExecutionTimeMs <= stats[order[n]].avgExecutionTimeMs then best
      else Some(n)
  }

  /** The name of the fastest mode, or N/A. */
  function FastestMode(stats: map<string, ModeStats>, order: seq<string>): string
    requires Listed(stats, order)
  {
    match FastestIndex(stats, order)
    case None => NoFastestMode
    case Some(i) => order[i]
  }

  /** MetricsResponse.from, with the entry set's iteration order given. */
  function From(stats: map<string, ModeStats>, order: seq<string>): (r: MetricsResponse)
    requires Enumerates(stats, order)
    ensures r.modeStats == stats
    ensures (forall k :: k in stats ==> stats[k].totalExecutions == 0) ==> r.summary.fastestMode == NoFastestMode
    ensures (exists k :: k in stats && stats[k].totalExecutions > 0) ==>
              && r.summary.fastestMode in stats
              && stats[r.summary.fastestMode].totalExecutions > 0
              && forall k :: k in stats && stats[k].totalExecutions > 0 ==>
                   stats[r.summary.fastestMode].avgExecutionTimeMs <= stats[k].avgExecutionTimeMs
  {
    MetricsResponse(stats, Summary(Total(stats, order, Completed), Total(stats, order, Failed),
                                   Total(stats, order, Active), FastestMode(stats, order)))
  }

  /** The summary's totals are sums over the modes whatever the iteration order;
      completed plus failed covers every execution when no mode's counters fall short of
      its executions, and is every execution when each mode's counters balance. */
  lemma FromTotals(stats: map<string, ModeStats>, order: seq<string>, other: seq<string>)
    requires Enumerates(stats, order) && Enumerates(stats, other)
    ensures From(stats, order).summary.totalCompleted == Total(stats, other, Completed)
    ensures From(stats, order).summary.totalFailed == Total(stats, other, Failed)
    ensures From(stats, order).summary.totalActive == Total(stats, other, Active)
    ensures (forall k :: k in stats ==> stats[k].completedCount + stats[k].failedCount >= stats[k].totalExecutions) ==>
              From(stats, order).summary.totalCompleted + From(stats, order).summary.totalFailed
                >= Total(stats, other, Executions)
    ensures (forall k :: k in stats ==> stats[k].completedCount + stats[k].failedCount == stats[k].totalExecutions) ==>
              From(stats, order).summary.totalCompleted + From(stats, order).summary.totalFailed
                == Total(stats, other, Executions)
  {
    PermutationOfKeys(stats, order, other);
    TotalOrderFree(stats, order, other, Completed);
    TotalOrderFree(stats, order, other, Failed);
    TotalOrderFree(stats, order, other, Active);
    if forall k :: k in stats ==> stats[k].completedCount + stats[k].failedCount >= stats[k].totalExecutions {
      TotalsCoverEveryExecution(stats, other);
    }
    if forall k :: k in stats ==> stats[k].completedCount + stats[k].failedCount == stats[k].totalExecutions {
      TotalsCountEveryExecution(stats, other);
    }
  }

  /** Two enumerations of the same keys hold the same keys, each once. */
  lemma {:induction false} PermutationOfKeys(stats: map<string, ModeStats>, order: seq<string>, other: seq<string>)
    requires Enumerates(stats, order) && Enumerates(stats, other)
    ensures multiset(order) == multiset(other)
  {
    forall k ensures multiset(order)[k] == multiset(other)[k] {
      CountOfDistinct(order, k);
      CountOfDistinct(other, k);
    }
  }

  /** In a sequence without repeats, an element occurs once or not at all. */
  lemma {:induction false} CountOfDistinct(s: seq<string>, k: string)
    requires forall i, j :: 0 <= i < j < |s| ==> s[i] != s[j]
    ensures multiset(s)[k] == if k in s then 1 else 0
  {
    if s != [] {
      var init := s[..|s| - 1];
      assert s == init + [s[|s| - 1]];
      CountOfDistinct(init, k);
    }
  }
}
