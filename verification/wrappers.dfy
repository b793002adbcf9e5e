/** Failure-carrying result types shared by every module of the model. */
module Wrappers {

  /** A value that may be absent: a missing document field, a lookup that found nothing. */
  datatype Option<+T> = None | Some(value: T)

  /** The outcome of an operation that either succeeds with a value or fails with an error kind. */
  datatype Result<+R, +E> = Success(value: R) | Failure(error: E)
}
