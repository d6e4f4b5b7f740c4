/** The optional value and the raised-exception outcome used across the model. */
module Wrappers {

  datatype Option<T> = None | Some(value: T)

  /** A Python call that returns a value, or raises the named exception. */
  datatype Result<T> = Ok(value: T) | Raised(exception: string)
}
