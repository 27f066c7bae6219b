/** Option and Result values used in place of `undefined`, thrown errors and
    stream "error" events. */
module Wrappers {

  datatype Option<+T> = None | Some(value: T)

  datatype Result<+R, +E> = Ok(value: R) | Err(error: E)
}
