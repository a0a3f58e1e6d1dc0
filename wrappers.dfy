/** Option and Result datatypes used across the model. */
module Wrappers {

  /** A value that may be absent. */
  datatype Option<+T> = None | Some(value: T)

  /** The outcome of a step that may fail with an error of type `E`. */
  datatype Result<+T, +E> = Ok(value: T) | Err(error: E)
}
