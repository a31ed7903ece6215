/** Option, Result and Outcome: the success/failure values the handlers return
    instead of raising. */
module Wrappers {

  datatype Option<+T> = None | Some(value: T)

  /** A handler's return value or the error it raises. */
  datatype Result<+R, +E> = Success(value: R) | Failure(error: E)

  /** A check that either passes or raises. */
  datatype Outcome<+E> = Pass | Fail(error: E)
}
