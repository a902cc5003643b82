/** Wrappers: a value that may be absent, and a value or an error. */
module Wrappers {

  /** Python's `None` or some value. */
  datatype Option<+T> = None | Some(value: T)

  /** The normal return of an operation, or the exception it raises. */
  datatype Result<+R, +E> = Success(value: R) | Failure(error: E)
}
