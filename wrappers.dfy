/** Failure-carrying result types shared by every module of the model. */
module Wrappers {

  datatype Option<+T> = None | Some(value: T)

  /** A computation that either produces a value or fails with an error
      (the exceptions and HTTP errors of the modelled code). */
  datatype Result<+T, +E> = Success(value: T) | Failure(error: E)
}
