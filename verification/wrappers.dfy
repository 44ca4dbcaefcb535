// Results that may be missing or may be errors.

module Wrappers {
  datatype Option<T> = None | Some(value: T)

  datatype Result<T> = Ok(value: T) | Failed(error: string)
}
