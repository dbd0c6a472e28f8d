/** Option and Result, used for Python's `None` and for the exceptions the client can raise. */
module Wrappers {

  /** A value that may be absent: Python's `None`, or a missing JSON member. */
  datatype Option<+T> = None | Some(value: T) {

    /** The value, or `default` when absent: Python's `dict.get(key, default)`. */
    function GetOr(default: T): T {
      match this
      case Some(v) => v
      case None => default
    }
  }

  /** The outcome of an operation that may raise instead of returning. */
  datatype Result<+T, +E> = Ok(value: T) | Err(error: E)
}
