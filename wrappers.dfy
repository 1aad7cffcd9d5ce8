/** Optional values and Python exceptions, shared by every module of the model. */
module Wrappers {
  datatype Option<T> = None | Some(value: T)

  /** The Python exception classes the modelled code raises or catches. */
  datatype PyError =
    | ValueError
    | KeyError
    | TypeError
    | IndexError
    | AttributeError
    | ZeroDivisionError
    | UnicodeDecodeError
      /** A value the model does not represent (for example iteration over a JSON object's keys). */
    | Unsupported

  /** The outcome of a Python call: a value, or the exception it raises. */
  datatype Result<T> = Ok(value: T) | Err(error: PyError)
}
