/** Optional values, and the `(T, error)` pair a library call returns. */
module Wrappers {
  datatype Option<+T> = None | Some(value: T)

  /** A library result: a value, or the text of the error it reported. */
  datatype Fallible<+T> = Ok(value: T) | Err(message: string)
}
