/** The sealed JobEngineException hierarchy (InvalidJobException, JobExecutionException,
    IOSimulationException) as one sum type, together with the JDK exceptions that the core
    throws or catches (IllegalArgumentException, InterruptedException, and any other
    exception a collaborator may raise). */
module Exceptions {
  import opened Wrappers

  datatype Exception =
    | InvalidJobException(msg: string)
    | JobExecutionException(msg: string, cause: Option<Exception>)
    | IOSimulationException(msg: string, cause: Option<Exception>)
    | IllegalArgumentException(msg: string)
    | InterruptedException(detail: Option<string>)
    | OtherException(detail: Option<string>)
  {
    /** Throwable.getMessage(): null for an exception built without a message. */
    function Message(): (m: Option<string>)
      ensures IsJobEngineException() ==> m.Some?
    {
      match this
      case InvalidJobException(msg) => Some(msg)
      case JobExecutionException(msg, _) => Some(msg)
      case IOSimulationException(msg, _) => Some(msg)
      case IllegalArgumentException(msg) => Some(msg)
      case InterruptedException(detail) => detail
      case OtherException(detail) => detail
    }

    /** Membership in the sealed JobEngineException hierarchy. */
    predicate IsJobEngineException() {
      InvalidJobException? || JobExecutionException? || IOSimulationException?
    }
  }

  /** Java string concatenation renders a null reference as "null". */
  function TextOrNull(s: Option<string>): string {
    s.GetOr("null")
  }
}
