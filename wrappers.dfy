/** Option, Result and Outcome values shared by the other modules. */
module Wrappers {

  datatype Option<+T> = None | Some(value: T)

  datatype Result<+T, +E> = Success(value: T) | Failure(error: E)

  /** The result of a pass that either runs to the end or stops at an error. */
  datatype Outcome<+E> = Pass | Fail(error: E)
}
