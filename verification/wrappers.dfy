/** Optional values and success-or-failure results, standing in for Python's
    `None` and for raised exceptions. */
module Wrappers {

  datatype Option<+T> = None | Some(value: T) {

    /** The wrapped value, or `default` when there is none (Python's `x or d`
        and `dict.get(k, d)`). */
    function GetOr(default: T): T {
      match this
      case Some(v) => v
      case None => default
    }
  }

  /** A computation that either produced a value or raised an exception
      whose message is `error`. */
  datatype Result<+R, +E> = Success(value: R) | Failure(error: E)
}
