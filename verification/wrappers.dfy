/** Optional values and success/failure results, used wherever the monitored
    program has a dictionary key that may be absent, a `None`, or an
    exception that escapes to its caller. */
module Wrappers {

  /** A dictionary entry that may be missing, or a Python value that may be `None`. */
  datatype Option<T> = None | Some(value: T) {

    /** Python's `dict.get(key, fallback)`: the entry when present, else `fallback`. */
    function ValueOr(fallback: T): T {
      if Some? then value else fallback
    }
  }

  /** The outcome of an operation that either produces a value or raises. */
  datatype Result<+R, +E> = Success(value: R) | Failure(error: E)
}
