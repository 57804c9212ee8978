/** Failure-carrying return values: Python code here either returns a value
    or raises; the model returns one of these instead of raising. */
module Wrappers {

  datatype Option<+T> = None | Some(value: T)

  datatype Result<+R, +E> = Success(value: R) | Failure(error: E)

  /** A step that returns nothing of interest, or fails. */
  datatype Outcome<+E> = Pass | Fail(error: E)
}
