/** Option and Result, used where the source returns None, {} or catches an exception. */
module Wrappers {

  datatype Option<+T> = None | Some(value: T) {
    /** The wrapped value, or `default` when there is none (Python's `d.get(k, default)`). */
    function GetOr(default: T): T {
      match this
      case Some(v) => v
      case None => default
    }
  }

  /** A call into a collaborator that either returns a value or raises with a message. */
  datatype Result<+R> = Success(value: R) | Failure(error: string)
}
