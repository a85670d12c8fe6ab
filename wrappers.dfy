/** Optional values and results with an error text, used by every other module. */
module Wrappers {

  datatype Option<+T> = None | Some(value: T)

  /** A value, or the error text the Python code would report for it. */
  datatype Result<+T> = Ok(value: T) | Err(error: string)
}
