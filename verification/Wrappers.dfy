/** Failure-compatible values shared by every model in this project. */
module Wrappers {

  datatype Option<+T> = None | Some(value: T)

  /** A successful value, or the reason the source gives up (an `Err`, a panic or a failed `require`). */
  datatype Result<+T, +E> = Ok(value: T) | Err(error: E)
}
