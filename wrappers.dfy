/** Failure-compatible wrappers shared by the other modules. */
module Wrappers {

  /** An optional value: Python's `str | None`. */
  datatype Option<+T> = None | Some(value: T)

  /** A value or the exception that escaped while computing it. */
  datatype Result<+R, +E> = Success(value: R) | Failure(error: E)
}
