/** Option and Result values: a Go `nil` return and a `log.Fatal` exit are
    modelled by `None` and `Err` respectively. */
module Wrappers {

  datatype Option<+T> = None | Some(value: T)

  datatype Result<+T, +E> = Ok(value: T) | Err(error: E)
}
