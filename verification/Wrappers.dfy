/** The two result shapes shared by the other modules. */
module Wrappers {
  datatype Option<+T> = None | Some(value: T)

  // A service call either returns a value or raises a domain error.
  datatype Result<+T, +E> = Ok(value: T) | Err(error: E)
}
