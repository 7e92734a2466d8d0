/** An optional value and a value-or-error. */
module Wrappers {

  /** A value that may be absent (Python's `None`). */
  datatype Option<+T> = None | Some(value: T)

  /** A computed value, or the error the computation raised. */
  datatype Result<+R, +E> = Success(value: R) | Failure(error: E)
}
