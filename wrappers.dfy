/** Optional values and results with an error, as the processor's callers see them. */
module Wrappers {

  /** A value that may be absent (Python's None, or a key missing from a dict). */
  datatype Option<+T> = None | Some(value: T) {

    /** The value, or the given default when absent (Python's `dict.get(key, default)`). */
    function GetOr(default: T): T
    {
      match this
      case Some(v) => v
      case None => default
    }
  }

  /** The value a call returns, or the exception it raises. */
  datatype Result<+R, +E> = Success(value: R) | Failure(error: E)
}
