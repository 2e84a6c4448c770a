/** Optional values and error-carrying results shared by the model. */
module Wrappers {

  /** A value that may be absent: JavaScript's `undefined`/`null` for a missing
      parameter, field or database document. */
  datatype Option<+T> = None | Some(value: T) {

    /** The value, or `default` when absent. */
    function GetOr(default: T): T {
      match this
      case Some(v) => v
      case None => default
    }
  }

  /** The outcome of an operation that either returns a value or throws. */
  datatype Result<+T, +E> = Success(value: T) | Failure(error: E)
}
