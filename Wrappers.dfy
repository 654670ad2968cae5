/** Option and Result values used for the nullable returns and thrown errors of the system. */
module Wrappers {

  /** A value that may be absent: TypeScript's `T | null` (or an optional field). */
  datatype Option<+T> = None | Some(value: T) {

    /** The encapsulated value, or a default when absent (`x ?? default`). */
    function GetOr(default: T): T {
      match this
      case Some(v) => v
      case None => default
    }
  }

  /** The outcome of an operation that either returns a value or raises an error. */
  datatype Result<+R, +E> = Success(value: R) | Failure(error: E)

  /** The outcome of an operation that returns nothing or raises an error. */
  datatype Outcome<+E> = Pass | Fail(error: E)
}
