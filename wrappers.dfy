/** Option and Result: JavaScript's `undefined`/`null` and thrown errors made explicit. */
module Wrappers {

  datatype Option<+T> = None | Some(value: T)

  datatype Result<+T, +E> = Ok(value: T) | Err(error: E)
}
