/** Optional values and results shared by the rest of the model. */
module Wrappers {

  /** A value that may be missing: pandas' None / NaN cell. */
  datatype Option<T> = None | Some(value: T)

  /** The outcome of a run: a value, or the message shown to the user. */
  datatype Result<T> = Ok(value: T) | Err(message: string)
}
