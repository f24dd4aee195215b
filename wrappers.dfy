/** Option and Result: the absence of a value (a null reference in the system) and
    an operation that either yields a value or throws an error. */
module Wrappers {

  datatype Option<+T> = None | Some(value: T)

  datatype Result<+T, +E> = Ok(value: T) | Err(error: E)
}
