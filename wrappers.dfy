/** The optional and failure-carrying values the model's reads return. */
module Wrappers {

  /** Python's `T | None`. */
  datatype Option<+T> = None | Some(value: T)

  /** A value, or the exception the Python code would raise instead. */
  datatype Result<+T, +E> = Ok(value: T) | Err(error: E)
}
