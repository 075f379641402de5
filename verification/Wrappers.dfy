// The two result shapes used throughout: an optional value, and a value or the error the interpreter throws.
module Wrappers {
  datatype Option<+T> = None | Some(value: T)

  datatype Result<+T> = Ok(value: T) | Err(message: string)
}
