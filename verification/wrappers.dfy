/** Option and Result, the shapes every other module uses for "absent" and
    "rejected" values. */
module Wrappers {

  /** A value that may be absent: JavaScript's `undefined` (or `null`). */
  datatype Option<+T> = None | Some(value: T) {

    /** The wrapped value, or `default` when absent (the `x || default` and
        `x ?? default` idiom of the source). */
    function GetOr(default: T): T {
      match this
      case Some(v) => v
      case None => default
    }
  }

  /** A computation that succeeded with a value or failed with an error. */
  datatype Result<+R, +E> = Success(value: R) | Failure(error: E)
}
