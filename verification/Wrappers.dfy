/** The two result shapes used across the model: a value that may be missing, and a Go
    `(value, error)` pair. */
module Wrappers {
  datatype Option<+T> = None | Some(value: T)

  datatype Result<+T, +E> = Ok(value: T) | Err(error: E)
}
