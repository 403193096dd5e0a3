/** Option and Result values standing in for Go's nil checks and (value, error) pairs. */
module Wrappers {

  datatype Option<+T> = None | Some(value: T)

  /** A Go `(value, error)` pair: either a value or the text of the error. */
  datatype Result<+T> = Ok(value: T) | Err(msg: string)
}
