/** Result types shared by the other modules. */
module Wrappers {

  /** A value that may be absent: Go's nil, its "ok" results, or a step that is not enabled. */
  datatype Option<+T> = None | Some(value: T)

  /** A value or the error returned in its place. */
  datatype Result<+T, +E> = Ok(value: T) | Err(error: E)
}
