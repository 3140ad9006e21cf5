/** Failure-compatible wrappers shared by every module of the model. */
module Wrappers {

  /** A value that may be missing: Python's "returns False / raises" paths. */
  datatype Option<+T> = None | Some(value: T)

  /** A value or the error the Python code raises instead of returning it. */
  datatype Result<+T, +E> = Success(value: T) | Failure(error: E)
}
