/** Failure-compatible wrappers shared by the whole model.
    `None` and `Err` stand for the places where the library panics
    (an `expect` on a missing builder field, an index out of range,
    an empty neighbourhood). */
module Wrappers {

  datatype Option<+T> = None | Some(value: T)

  datatype Result<+T, +E> = Ok(value: T) | Err(error: E)
}
