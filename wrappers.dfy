/** Failure-carrying result types shared by the other modules. */
module Wrappers {

  datatype Option<+T> = None | Some(value: T)

  /** A value, or the error (or Go panic) that replaced it. */
  datatype Result<+T, +E> = Success(value: T) | Failure(error: E)
}
