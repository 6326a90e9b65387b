/** Option and Result, the two shapes every Go `(value, ok)` and `(value, error)` pair takes in this model. */
module Wrappers {
  datatype Option<T> = None | Some(value: T)

  /** A Go `(value, error)` return: `Err` carries the error's message text. */
  datatype Result<T> = Ok(value: T) | Err(msg: string)
}
