/** Optional values and results with an error message, for the places where
    the Python code returns "nothing" or raises an exception. */
module Wrappers {

  datatype Option<+T> = None | Some(value: T)

  /** `Err` stands for a Python exception: the message names the exception. */
  datatype Result<+T> = Ok(value: T) | Err(error: string)
}
