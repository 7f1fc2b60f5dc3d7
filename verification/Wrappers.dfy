// Results and optional values: the Go code's (value, error) pairs and nil pointers.
module Wrappers {
  datatype Option<+T> = None | Some(value: T)

  datatype Result<+T> = Ok(value: T) | Err
}
