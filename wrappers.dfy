/** The optional value that stands for Go's nil results and comma-ok lookups, and the (value, error) pair of Go's fallible calls. */
module Wrappers {

  datatype Option<+T> = None | Some(value: T)

  datatype Result<+T, +E> = Ok(value: T) | Err(error: E)
}
