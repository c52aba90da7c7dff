/** Small failure-compatible wrappers shared by the modules of the project. */
module Wrappers {

  /** A value that may be absent: Java's `null` on the boundary of the model. */
  datatype Option<+T> = None | Some(value: T)

  /** A value or the reason there is none: an exception on the boundary of the model. */
  datatype Result<+T, +E> = Ok(value: T) | Err(error: E)
}
