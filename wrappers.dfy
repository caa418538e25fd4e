/** Failure-carrying result types used to model the manager's fatal-error reports. */
module Wrappers {

  datatype Option<+T> = None | Some(value: T)

  /** The value of an operation, or the error that stopped it. */
  datatype Result<+R, +E> = Success(value: R) | Failure(error: E)

  /** The outcome of an operation that returns nothing (a `void` member). */
  datatype Outcome<+E> = Pass | Fail(error: E)
}
