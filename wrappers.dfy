/** Optional values and success-or-failure results, as used by the check handler
    for JavaScript's `undefined`/`null` and for thrown errors. */
module Wrappers {

  /** A value that may be absent (`undefined` or `null` in the source). */
  datatype Option<+T> = None | Some(value: T) {

    /** The value, or `default` when absent (JavaScript's `x || default` on a
        field that is either missing or present). */
    function GetOr(default: T): T
    {
      match this
      case Some(v) => v
      case None => default
    }
  }

  /** The outcome of a computation that may throw: its value, or the error message. */
  datatype Result<+R, +E> = Success(value: R) | Failure(error: E)
}
