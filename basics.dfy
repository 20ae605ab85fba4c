/** Option and Result, the two wrappers the model uses for C's NULL pointers and error returns. */
module Basics {

  datatype Option<+T> = None | Some(value: T)

  datatype Result<+T, +E> = Ok(value: T) | Err(error: E)
}
