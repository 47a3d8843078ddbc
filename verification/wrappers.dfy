/** Optional values and results with an error message, used wherever the
    allocator returns "nothing" (Python `None`, a pandas NaN cell) or raises. */
module Wrappers {

  /** `None` stands for Python `None` and for a missing (NaN) cell. */
  datatype Option<+T> = None | Some(value: T) {
    function GetOr(default: T): T {
      match this
      case Some(v) => v
      case None => default
    }
  }

  /** `Failure` stands for a raised `ValueError` carrying its message. */
  datatype Result<+T> = Success(value: T) | Failure(error: string)
}
