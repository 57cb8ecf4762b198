/** Option and Result, the two failure-carrying types both modules use, shaped after Rust's. */
module Wrappers {

  datatype Option<+T> = None | Some(value: T)

  datatype Result<+T, +E> = Ok(value: T) | Err(error: E)
}
