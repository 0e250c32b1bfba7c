/** Optional values and error results shared by the dashboard modules. */
module Wrappers {

  /** A value that may be missing: pandas' NaN in a mapped column, or an unset dropdown. */
  datatype Option<+T> = None | Some(value: T)

  /** The outcome of a callback: its return value, or the exception it raises. */
  datatype Result<+R, +E> = Ok(value: R) | Err(error: E)
}
