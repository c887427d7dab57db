/** Option, Result and Outcome values for the error paths of the booking platform. */
module Wrappers {

  datatype Option<+T> = None | Some(value: T)

  /** A computation that either produces a value or fails with an error kind. */
  datatype Result<+R, +E> = Success(value: R) | Failure(error: E)

  /** A check that either passes or fails with an error kind. */
  datatype Outcome<+E> = Pass | Fail(error: E)
}
