/** Rust's `Option` and `Result`, as used by the scanner, the parser and the template writer. */
module Wrappers {

  datatype Option<+T> = None | Some(value: T)

  datatype Result<+R, +E> = Ok(value: R) | Err(error: E)
}
