/** Failure-carrying values used in place of Java's null and exceptions. */
module Wrappers {

  /** A nullable Java reference: None stands for null. */
  datatype Option<+T> = None | Some(value: T)

  /** The value an operation returns, or the exception it throws. */
  datatype Result<+R, +E> = Success(value: R) | Failure(error: E)

  /** The outcome of an operation that returns nothing (void) or throws. */
  datatype Outcome<+E> = Pass | Fail(error: E)
}
