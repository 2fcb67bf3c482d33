/** ExecutionMode: the three execution strategies a job can be submitted under. */
module ExecutionModes {

  datatype ExecutionMode = SEQUENTIAL | THREAD_POOL | ASYNC

  /** ExecutionMode.values(), in declaration order. */
  const AllModes: seq<ExecutionMode> := [SEQUENTIAL, THREAD_POOL, ASYNC]

  /** Enum.name(). */
  function Name(m: ExecutionMode): string {
    match m
    case SEQUENTIAL => "SEQUENTIAL"
    case THREAD_POOL => "THREAD_POOL"
    case ASYNC => "ASYNC"
  }

  /** values() lists every mode exactly once, and the names tell the modes apart. */
  lemma AllModesEnumerates(m: ExecutionMode)
    ensures m in AllModes
    ensures forall i, j :: 0 <= i < j < |AllModes| ==> AllModes[i] != AllModes[j]
    ensures forall m' :: Name(m) == Name(m') ==> m == m'
  {
  }

  /** Every mode is among the values. */
  lemma AllModesListed()
    ensures forall m: ExecutionMode :: m in AllModes
  {
    forall m: ExecutionMode ensures m in AllModes {
      AllModesEnumerates(m);
    }
  }
}
