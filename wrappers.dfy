/** The optional-value and value-or-error types used throughout the model. */
module Wrappers {

  /** Python's `None` versus a present value. */
  datatype Option<+T> = None | Some(value: T)

  /** A value, or the error the source would raise or return instead. */
  datatype Result<+T, +E> = Ok(value: T) | Err(error: E)
}
