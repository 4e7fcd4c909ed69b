/** Option and Result, used for the source's `Option`, its `unwrap` sites and its early returns. */
module Wrappers {

  datatype Option<+T> = None | Some(value: T)

  datatype Result<+T, +E> = Ok(value: T) | Err(error: E)
}
