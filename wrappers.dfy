/** Option and Result, the two failure-carrying shapes the rest of the model uses. */
module Wrappers {

  datatype Option<+T> = None | Some(value: T)

  /** A Python exception that escapes an operation is an `Err` carrying its message. */
  datatype Result<+T> = Ok(value: T) | Err(error: string)
}
