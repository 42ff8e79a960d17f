/** Option and Result, for values that may be absent and for the error paths
    the program reports by throwing. */
module Wrappers {

  datatype Option<+T> = None | Some(value: T)

  datatype Result<+R, +E> = Ok(value: R) | Err(error: E)
}
