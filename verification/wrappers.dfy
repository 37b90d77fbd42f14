/** The two failure-carrying datatypes the rest of the model uses. */
module Wrappers {

  /** A value that may be missing (Go's comma-ok results, nil map entries). */
  datatype Option<+T> = None | Some(value: T)

  /** A value or an error (Go's `(T, error)` results). */
  datatype Result<+T, +E> = Ok(value: T) | Err(error: E)
}
