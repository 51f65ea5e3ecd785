/** Failure-compatible wrappers used throughout the model: `Option` for Go's
    nil-able pointers and `(value, ok)` pairs, `Result` for `(value, error)`. */
module Wrappers {

  datatype Option<+T> = None | Some(value: T)

  datatype Result<+T, +E> = Ok(value: T) | Err(error: E)
}
