/** `Option` and `Result` wrappers used across the model. */
module Wrappers {

  /** A value that may be missing: JavaScript's `undefined`/`null`/`NaN` cases. */
  datatype Option<+T> = None | Some(value: T) {

    /** The wrapped value, or `default` when there is none. */
    function GetOr(default: T): T {
      match this
      case Some(v) => v
      case None => default
    }
  }

  /** The outcome of an operation that can throw: a value or the error it threw. */
  datatype Result<+R, +E> = Success(value: R) | Failure(error: E)
}
