/** Optional values and success/failure results, used wherever the Python
    code returns `None` or raises an exception. */
module Outcomes {

  /** `None` or a present value. */
  datatype Option<+T> = None | Some(value: T) {

    /** The value if present, otherwise `d` (Python's `dict.get(key, d)`). */
    function GetOr(d: T): T {
      match this
      case Some(v) => v
      case None => d
    }
  }

  /** A normal return, or the exception that was raised instead. */
  datatype Result<+T, +E> = Ok(value: T) | Err(error: E)
}
