/** Option, Result and Outcome types used across the model for lookups that
    may miss and for operations that may fail with a message. */
module Wrappers {

  datatype Option<+T> = None | Some(value: T)

  datatype Result<+T, +E> = Ok(value: T) | Err(error: E)

  /** The result of a check that either passes or raises with an error. */
  datatype Outcome<+E> = Pass | Fail(error: E)
}
