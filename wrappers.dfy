/** Option, the results of operations that may raise, and the exceptions the
    harness raises or lets through. */
module Wrappers {

  datatype Option<+T> = None | Some(value: T)

  /** The Python exceptions that the modelled code raises or propagates. */
  datatype Exception =
    | TypeError(message: string)
    | ValueError(message: string)
    | RuntimeError(message: string)
    | KeyError
    | AttributeError(attribute: string)
    | NameError(name: string)
    | UnboundLocalError(variable: string)
    | AssertionError
    | SyntaxError
    /** An exception raised by code outside the model (a test body, the
        compiler launcher, a run function), identified by its class name. */
    | Foreign(className: string)

  /** A value, or the exception raised instead of producing it. */
  datatype Result<+T> = Ok(value: T) | Err(error: Exception) {
    predicate IsFailure() { Err? }

    function PropagateFailure<U>(): Result<U>
      requires Err?
    {
      Err(error)
    }

    function Extract(): T
      requires Ok?
    {
      value
    }
  }
}
