/** Option and Result, the two shapes the services use for "may be missing" and "may fail". */
module Wrappers {
  datatype Option<T> = None | Some(value: T)

  datatype Result<T, E> = Ok(value: T) | Err(error: E)
}
