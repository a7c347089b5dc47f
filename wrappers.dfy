/** Optional values and results shared by the game models. */
module Wrappers {

  /** A value that may be absent (Python's `Optional[...]` / `None`). */
  datatype Option<T> = None | Some(value: T)

  /** The outcome of an accessor that raises an exception instead of returning. */
  datatype Result<T, E> = Ok(value: T) | Err(error: E)
}
