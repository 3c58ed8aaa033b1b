/** Option and Result, the shapes of Rust's `Option<T>` and `eyre::Result<T>`. */
module Wrappers {

  datatype Option<+T> = None | Some(value: T)

  datatype Result<+R, +E> = Success(value: R) | Failure(error: E)
}
