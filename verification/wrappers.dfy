/** Failure-compatible wrappers shared by the whole model. */
module Wrappers {

  /** A value that may be absent (TypeScript's optional field or `T | null`). */
  datatype Option<+T> = None | Some(value: T) {

    /** The wrapped value, or `default` when absent (JavaScript's `x ?? default`). */
    function GetOr(default: T): T {
      match this
      case Some(v) => v
      case None => default
    }
  }

  /** Either a computed value or an error message. */
  datatype Result<+R, +E> = Success(value: R) | Failure(error: E)
}
