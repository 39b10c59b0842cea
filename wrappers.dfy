/** Absent values and failing operations, as the rest of the model needs them. */
module Wrappers {

  /** A value that may be absent (`undefined`/`null` in the source). */
  datatype Option<+T> = None | Some(value: T) {
    /** The value, or `default` when absent (the source's `??`). */
    function GetOr(default: T): T {
      match this
      case Some(v) => v
      case None => default
    }
  }

  /** The outcome of an operation that returns normally or throws. */
  datatype Result<+T, +E> = Success(value: T) | Failure(error: E)
}
