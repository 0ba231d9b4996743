/** The two result shapes shared by every module: a nullable value and a Go-style (value, error) pair. */
module Wrappers {

  datatype Option<+T> = None | Some(value: T)

  datatype Result<+T> = Ok(value: T) | Err
}
