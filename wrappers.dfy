/** Option and Result, the two failure-carrying types the Rust code uses everywhere. */
module Wrappers {

  datatype Option<+T> = None | Some(value: T)

  /** `Ok` carries a value, `Err` an error, as Rust's `std::result::Result` does. */
  datatype Result<+T, +E> = Ok(value: T) | Err(error: E)
}
