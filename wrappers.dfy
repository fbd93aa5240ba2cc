/** Option and Result values, standing in for Go's nil pointers and (value, error) pairs. */
module Wrappers {

  /** A value that may be absent: `None` plays the part of a nil pointer. */
  datatype Option<+T> = None | Some(value: T)

  /** The outcome of an operation that can fail. */
  datatype Result<+T, +E> = Ok(value: T) | Err(error: E)
}
