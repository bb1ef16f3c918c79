/** The two failure-carrying types of the model: Option for a value that may be
    absent (Python's None from `dict.get` or `os.getenv`), Result for a call that
    either returns a value or raises an exception. */
module Wrappers {

  datatype Option<+T> = None | Some(value: T)

  datatype Result<+T, +E> = Ok(value: T) | Err(error: E)
}
