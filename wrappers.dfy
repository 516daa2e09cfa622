/** Optional values and the outcome of an operation that may raise a Python exception. */
module Wrappers {

  datatype Option<+T> = None | Some(value: T)

  /** The Python exceptions the modelled code can raise. */
  datatype PyError =
    | IndexError      // a list subscript past the end
    | TypeError       // a string used where a dict is expected
    | AttributeError  // `None.startswith(...)`

  /** Either the value a Python function returns, or the exception it raises. */
  datatype Result<+T> = Ok(value: T) | Err(error: PyError)
}
