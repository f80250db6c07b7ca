/** Java's `null` and thrown exceptions, as values. */
module Wrappers {

  /** A reference that may be `null`. */
  datatype Option<+T> = None | Some(value: T) {

    /** The value, or `default` when there is none. */
    function GetOr(default: T): T {
      match this
      case Some(v) => v
      case None => default
    }
  }

  /** A call that either returns a value or throws an exception carrying `error`. */
  datatype Result<+T, +E> = Success(value: T) | Failure(error: E)
}
