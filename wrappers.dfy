/** Failure-carrying results shared by every module of the model. */
module Wrappers {

  /** A value that may be absent (Python's `None`, a missing dictionary key). */
  datatype Option<T> = None | Some(value: T)

  /** A value or an error: Python exceptions and C++ error returns become `Err`. */
  datatype Result<T, E> = Ok(value: T) | Err(error: E)
}
