// The two result shapes shared by every other module.
module Wrappers {
  // A pointer or a lookup that may be missing.
  datatype Option<+T> = None | Some(value: T)

  // A Go result pair (value, error) of which exactly one part is meaningful.
  datatype Result<+T, +E> = Ok(value: T) | Err(error: E)
}
