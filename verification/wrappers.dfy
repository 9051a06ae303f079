/** Failure-carrying datatypes shared by the model: Go's `nil`-or-value
    results become `Option`, and `(value, error)` pairs become `Result`. */
module Wrappers {

  datatype Option<+T> = None | Some(value: T)

  datatype Result<+T, +E> = Ok(value: T) | Err(error: E)
}
