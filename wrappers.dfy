/** Failure-carrying results shared by the modules of this model: the C# source
    reports these cases by throwing, the model returns them. */
module Wrappers {

  datatype Option<+T> = None | Some(value: T)

  datatype Result<+T, +E> = Success(value: T) | Failure(error: E)

  /** Result of an operation that returns nothing (a `void` method that may throw). */
  datatype Outcome<+E> = Pass | Fail(error: E)
}
