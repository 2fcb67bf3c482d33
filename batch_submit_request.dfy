/** BatchSubmitRequest: the body of a batch submission. The compact constructor replaces
    a missing or non-positive count by the default. */
module BatchSubmitRequests {
  import opened Wrappers
  import opened ExecutionModes

  const DefaultCount: int := 10

  /** executionMode None stands for Java null: one batch for every mode. */
  datatype BatchSubmitRequest = BatchSubmitRequest(count: int, executionMode: Option<ExecutionMode>)

  /** The compact constructor. */
  function Make(count: int, executionMode: Option<ExecutionMode>): (r: BatchSubmitRequest)
    ensures r.count >= 1
    ensures count > 0 ==> r.count == count
    ensures count <= 0 ==> r.count == DefaultCount
    ensures r.executionMode == executionMode
  {
    BatchSubmitRequest(if count <= 0 then DefaultCount else count, executionMode)
  }

  /** Building a request from an already built one changes nothing. */
  lemma MakeIdempotent(count: int, executionMode: Option<ExecutionMode>)
    ensures Make(Make(count, executionMode).count, executionMode) == Make(count, executionMode)
  {
  }
}
