/** Optional values and results with an error, used where the planner's Python
    code relies on missing dictionary keys or on exceptions. */
module Wrappers {

  /** A value that may be absent: a dictionary key that the parsed model output
      may or may not carry. */
  datatype Option<+T> = None | Some(value: T) {

    /** The value, or `default` when absent: Python's `dict.get(key, default)`. */
    function GetOr(default: T): T {
      match this
      case Some(v) => v
      case None => default
    }
  }

  /** Either a value or an error; `Failure` stands for a raised exception. */
  datatype Result<+R, +E> = Success(value: R) | Failure(error: E)
}
