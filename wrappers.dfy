/** Optional values and results with an error, as used throughout the model. */
module Wrappers {

  /** A request argument or document key that may be absent. */
  datatype Option<+T> = None | Some(value: T)

  /** The outcome of a step that may raise. */
  datatype Result<+T, +E> = Ok(value: T) | Err(error: E)
}
