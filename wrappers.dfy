/** Option and the outcome of a Python call: a value, or the exception it raises. */
module Wrappers {

  datatype Option<T> = None | Some(value: T)

  /** The Python exceptions the modelled scripts can raise or catch. */
  datatype PyError =
    | IOError
    | ValueError
    | IndexError
    | ZeroDivisionError
    | AttributeError
    | UnboundLocalError

  datatype PyResult<T> = Ok(value: T) | Raise(error: PyError)
}
