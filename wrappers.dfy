/** Optional values and results, as the modelled code uses `undefined` and exceptions. */
module Wrappers {

  /** A value that may be absent (`undefined` or `null` in the source). */
  datatype Option<+T> = None | Some(value: T) {

    /** The value, or `default` when absent. */
    function GetOr(default: T): T {
      match this
      case Some(v) => v
      case None => default
    }
  }

  /** The outcome of an operation that either succeeds with a value or throws. */
  datatype Result<+T, +E> = Ok(value: T) | Err(error: E)
}
