/** Failure-compatible wrappers shared by the other modules. */
module Wrappers {

  /** A value that may be absent (a nil pointer in the source). */
  datatype Option<+T> = None | Some(value: T)

  /** A value or an error (the source's `(T, error)` pairs). */
  datatype Result<+T, +E> = Success(value: T) | Failure(error: E)
}
