/** Option and Result, the two failure-carrying wrappers the model uses:
    Option for Python's `None` and `dict.get` defaults, Result for an
    operation that either returns a value or raises an exception. */
module Wrappers {

  datatype Option<+T> = None | Some(value: T) {
    /** `dict.get(key, default)`: the stored value, or the default when absent. */
    function GetOr(default: T): T {
      match this
      case Some(v) => v
      case None => default
    }
  }

  datatype Result<+R, +E> = Success(value: R) | Failure(error: E)
}
