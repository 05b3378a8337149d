/** Failure-carrying datatypes shared by the whole model. */
module Wrappers {

  /** A value that may be absent: a missing dictionary key, a missing column, a missing file. */
  datatype Option<+T> = None | Some(value: T) {

    /** The carried value, or `default` when absent (Python's `dict.get(key, default)`). */
    function GetOr(default: T): T {
      match this
      case Some(v) => v
      case None => default
    }
  }

  /** Either a computed value or the error that the Python code would raise. */
  datatype Result<+R, +E> = Success(value: R) | Failure(error: E)
}
