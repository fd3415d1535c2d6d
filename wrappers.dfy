/** Option and Result: the model's stand-ins for Python's None and for raised exceptions. */
module Wrappers {

  datatype Option<+T> = None | Some(value: T)

  /** Ok carries a value; Err carries the exception that the Python code would raise. */
  datatype Result<+T, +E> = Ok(value: T) | Err(error: E)
}
