/** The usual optional value and success-or-failure wrappers. */
module Wrappers {

  datatype Option<+T> = None | Some(value: T)

  /** A computation that either returns `value` or throws `error`. */
  datatype Result<+T, +E> = Ok(value: T) | Err(error: E)
}
