/** Option and Result, the failure-carrying values used across the model. */
module Wrappers {

  datatype Option<+T> = None | Some(value: T)

  /** The outcome of an operation that can fail with an `E`. */
  datatype Result<+T, +E> = Ok(value: T) | Err(error: E)
}
