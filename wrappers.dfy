/** Failure-compatible result types and the Python exception kinds the model raises. */
module Wrappers {

  datatype Option<+T> = None | Some(value: T)

  datatype Result<+R, +E> = Success(value: R) | Failure(error: E)

  datatype Outcome<+E> = Pass | Fail(error: E)

  /** The exceptions the modelled code raises, with the message the source (or the library it calls) gives. */
  datatype Error =
    | ValueError(msg: string)
    | AxisError(msg: string)
    | IndexError(msg: string)
    | KeyError(key: string)
    | AttributeError(msg: string)
    | TypeError(msg: string)
    | UnboundLocalError(variable: string)
}
