/** Result types standing in for Java's null returns and thrown exceptions. */
module Wrappers {

  /** A value or nothing: the model of a Java reference that may be null. */
  datatype Option<+T> = None | Some(value: T)

  /** A value or the reason it could not be produced: the model of a call that may throw. */
  datatype Result<+R, +E> = Success(value: R) | Failure(error: E)

  /** Success without a value, or the reason for failure: a void call that may throw. */
  datatype Outcome<+E> = Pass | Fail(error: E)
}
