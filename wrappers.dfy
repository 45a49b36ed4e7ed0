/** Option and Result, the two failure-carrying shapes the model uses. */
module Wrappers {

  /** A value that may be missing (a `None` cell or a NaN after coercion). */
  datatype Option<+T> = None | Some(value: T)

  /** Either the value a call returns or the error it raises. */
  datatype Result<+T, +E> = Ok(value: T) | Err(error: E)
}
