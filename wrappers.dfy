/** The Option and Result datatypes shared by the modules of the shop model. */
module Wrappers {

  /** A value that may be absent: Python's `None` or a missing key. */
  datatype Option<+T> = None | Some(value: T)

  /** The outcome of a validator: the accepted value or the error message it raises. */
  datatype Result<+T, +E> = Ok(value: T) | Err(error: E)
}
