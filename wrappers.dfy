/** Failure-carrying datatypes used to model the source's exceptions as values. */
module Wrappers {

  datatype Option<+T> = None | Some(value: T)

  /** A computation that either produced a value or raised an error. */
  datatype Result<+R, +E> = Ok(value: R) | Err(error: E)

  /** A computation that only succeeds or raises. */
  datatype Outcome<+E> = Pass | Fail(error: E)
}
