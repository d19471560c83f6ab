/**
 * Optional values: Python's `None` versus a present value, and a missing
 * JSON key; and a JSON value that may be `null`.
 */
module Wrappers {

  datatype Option<+T> = None | Some(value: T) {

    /** The value, or `default` when absent: Python's `d.get(key, default)`. */
    function GetOr(default: T): T
    {
      match this
      case Some(v) => v
      case None => default
    }
  }

  /** A JSON value that may be `null` (read by Python as `None`). */
  datatype Nullable<+T> = Null | NonNull(value: T)
}
