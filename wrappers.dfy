/** Option and Result, the two failure-carrying values the model uses. */
module Wrappers {

  /** A value that may be absent (Python's `None`). */
  datatype Option<+T> = None | Some(value: T)

  /** Either a value or the error that interrupted its computation. */
  datatype Result<+T, +E> = Ok(value: T) | Err(error: E)
}
