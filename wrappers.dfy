/** Option and Result, used where the Go code returns a value together with
    an `ok` flag or an `error`. */
module Wrappers {

  datatype Option<+T> = None | Some(value: T)

  datatype Result<+T, +E> = Ok(value: T) | Err(error: E)
}
