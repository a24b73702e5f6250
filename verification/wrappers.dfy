/** Failure-carrying datatypes shared by the configuration parser and the driver. */
module Wrappers {

  /** A value that may be absent (Python's `None`). */
  datatype Option<+T> = None | Some(value: T)

  /** Either a value or an error describing why it could not be produced. */
  datatype Result<+R, +E> = Ok(value: R) | Err(error: E)
}
