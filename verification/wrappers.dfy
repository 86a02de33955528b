/** Failure-carrying results used for the engine's error paths. */
module Wrappers {

  datatype Option<+T> = None | Some(value: T)

  /** The value an operation returns, or the error it raises. */
  datatype Result<+R, +E> = Success(value: R) | Failure(error: E)

  /** An operation that returns nothing on success. */
  datatype Outcome<+E> = Pass | Fail(error: E)
}
