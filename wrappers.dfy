/** Option and Result values used for the source's missing keys and error returns. */
module Wrappers {

  /** A value that may be absent, such as a key missing from a JSON object. */
  datatype Option<+T> = None | Some(value: T) {

    /** The value, or `default` when absent (Python's `dict.get(key, default)`). */
    function GetOr(default: T): T {
      match this
      case Some(v) => v
      case None => default
    }
  }

  /** The outcome of a check that either passes with a value or raises an error. */
  datatype Result<+R, +E> = Success(value: R) | Failure(error: E)

  /** How a Python call ends: with a returned value, or with an exception that escapes it. */
  datatype Outcome<+T> = Returned(value: T) | Raised
}
