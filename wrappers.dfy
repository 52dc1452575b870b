/** Option and Result, the two shapes the model uses for Go's nil references
    and for Go's (value, error) returns. */
module Wrappers {

  /** A Go reference that may be nil, or an optional value: None stands for nil. */
  datatype Option<+T> = None | Some(value: T)

  /** A Go (value, error) pair in which exactly one side is meaningful. */
  datatype Result<+T, +E> = Ok(value: T) | Err(error: E)
}
