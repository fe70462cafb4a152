/** Failure-compatible result types shared by every module of the model.
    A Python call that may raise is modelled as returning a `Result`; the
    exception's text travels in `Err`. */
module Wrappers {

  datatype Option<+T> = None | Some(value: T)

  datatype Result<+T> = Ok(value: T) | Err(error: string)
}
