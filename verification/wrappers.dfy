/** Failure-compatible wrappers shared by every module of the model. */
module Wrappers {

  /** A value that may be absent: JavaScript's `undefined`, Python's `None`. */
  datatype Option<+T> = None | Some(value: T) {

    /** The carried value, or `default` when there is none (`x ?? default`). */
    function GetOr(default: T): T
    {
      match this
      case Some(v) => v
      case None => default
    }
  }

  /** Either a value or the error that a raised exception carries. */
  datatype Result<+R, +E> = Success(value: R) | Failure(error: E)
}
