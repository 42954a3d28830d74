/** Failure-carrying result types shared by every module of the scheduler model. */
module Wrappers {

  /** A value that may be absent; stands in for a Java reference that may be null. */
  datatype Option<+T> = None | Some(value: T)

  /** The outcome of an operation that either produces a value or reports why it could not. */
  datatype Result<+R, +E> = Success(value: R) | Failure(error: E)
}
