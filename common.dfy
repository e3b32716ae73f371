/** Small value types shared by every module of the model. */
module Common {

  /** `None` stands for Python's `None` (or a call that failed); `Some(v)` for a value. */
  datatype Option<+T> = None | Some(value: T) {

    /** The value, or `default` when there is none (Python's `x or default` on an optional). */
    function GetOr(default: T): (r: T)
      ensures Some? ==> r == value
      ensures None? ==> r == default
    {
      match this
      case Some(v) => v
      case None => default
    }
  }

  /** One octet of a Python `bytes` object. */
  newtype byte = x: int | 0 <= x < 256
}
