/** Failure-compatible wrappers shared by the pipeline modules. */
module Wrappers {

  /** An attribute that may be unset (Python's `None`). */
  datatype Option<+T> = None | Some(value: T)

  /** The outcome of a pipeline stage: its value, or the error it raises. */
  datatype Result<+T, +E> = Ok(value: T) | Err(error: E)
}
