/** The two failure-carrying types the rest of the project uses in place of Go's
    zero values and `error` returns. */
module Wrappers {

  datatype Option<+T> = None | Some(value: T)

  datatype Result<+T, +E> = Ok(value: T) | Err(error: E)
}
