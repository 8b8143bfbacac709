/** The two failure-carrying values used throughout the model. */
module Wrappers {

  /** A value that may be absent: a regular-expression compilation that failed,
      a request body that could not be decoded. */
  datatype Option<+T> = None | Some(value: T)

  /** Go's `(value, error)` pair: exactly one of the two is meaningful. */
  datatype Result<+T, +E> = Success(value: T) | Failure(error: E)
}
