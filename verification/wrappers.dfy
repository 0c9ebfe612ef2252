/** Option and Result: the model's stand-ins for JavaScript's `undefined`/`null`
    results and for thrown errors. */
module Wrappers {

  datatype Option<+T> = None | Some(value: T)

  datatype Result<+R, +E> = Ok(value: R) | Err(error: E)
}
