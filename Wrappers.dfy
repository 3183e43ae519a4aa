/** Option and Result values shared by the whole model. */
module Wrappers {

  /** A value that may be missing: JavaScript's `null` / `undefined`. */
  datatype Option<+T> = None | Some(value: T)

  /** The outcome of a check: a built value, or the message the user is shown. */
  datatype Result<+T, +E> = Ok(value: T) | Err(error: E)
}
