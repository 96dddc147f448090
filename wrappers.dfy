/** Failure-compatible wrappers used across the model. */
module Wrappers {

  /** An optional value, for Python's `None`. */
  datatype Option<+T> = None | Some(value: T)

  /** A value or the error that the Python code would raise instead. */
  datatype Result<+T, +E> = Ok(value: T) | Err(error: E)
}
