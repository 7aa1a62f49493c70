/** Option and Result types shared by every module of the model.
    `Result` carries the Python exception class that the modelled code raises. */
module Wrappers {

  datatype Option<T> = None | Some(value: T) {
    function GetOr(default: T): T
    {
      if Some? then value else default
    }
  }

  /** The Python exception classes raised by the modelled code. */
  datatype PyError =
    | ValueError
    | KeyError
    | TypeError
    | IndexError
    | FileNotFoundError
    | ZeroDivisionError
    | AttributeError

  datatype Result<T> = Ok(value: T) | Err(error: PyError) {
    predicate IsFailure()
    {
      Err?
    }

    function PropagateFailure<U>(): Result<U>
      requires Err?
    {
      Err(error)
    }

    function Extract(): T
      requires Ok?
    {
      value
    }
  }
}
