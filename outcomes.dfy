/**
 * Optional values and the Python exceptions that the modelled code can
 * raise. A Python function that may raise is modelled as a function or
 * method returning `Result`.
 */
module Outcomes {

  datatype Option<T> = None | Some(value: T)

  /** The exceptions the modelled code raises on malformed input. */
  datatype Error =
    | KeyError
    | IndexError
    | ValueError
    | AttributeError
    | ZeroDivisionError
    | UnboundLocalError

  datatype Result<T> = Ok(value: T) | Fail(error: Error)
}
