/** The two result shapes every other module uses. */
module Basics {
  /** A value that may be missing: a nil pointer, an absent file, a failed lookup. */
  datatype Option<+T> = None | Some(value: T)

  /** A call that either returns a value or a Go error. */
  datatype Result<+T, +E> = Ok(value: T) | Err(error: E)
}
