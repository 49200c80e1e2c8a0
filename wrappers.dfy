/** Failure-carrying datatypes shared by the whole model. */
module Wrappers {

  /** A value that may be absent (JavaScript `undefined`/`null`, a missing dictionary key). */
  datatype Option<+T> = None | Some(value: T) {
    function GetOr(default: T): T {
      match this
      case Some(v) => v
      case None => default
    }
  }

  /** The outcome of an operation that either returns a value or throws / rejects. */
  datatype Result<+R, +E> = Success(value: R) | Failure(error: E)
}
