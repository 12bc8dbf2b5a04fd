/** Optional values and failure results, standing for Rust's `Option` and for
    the panics of the validating constructors. */
module Wrappers {

  datatype Option<+T> = None | Some(value: T)

  datatype Result<+T, +E> = Ok(value: T) | Err(error: E)
}
