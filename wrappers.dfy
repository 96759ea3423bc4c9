/** Optional values and success-or-error results, used wherever the Python code
    returns `None`, raises, or reads a field that may be absent. */
module Wrappers {

  datatype Option<+T> = None | Some(value: T) {
    function GetOr(default: T): T {
      match this
      case Some(v) => v
      case None => default
    }
  }

  datatype Result<+R, +E> = Success(value: R) | Failure(error: E)

  /** The outcome of a Python call that returns nothing: it either completes or raises. */
  datatype Outcome<+E> = Pass | Fail(error: E)
}
