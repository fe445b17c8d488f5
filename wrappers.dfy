/** Option and Result values for the source's `None` returns and raised exceptions. */
module Wrappers {

  datatype Option<+T> = None | Some(value: T)

  /** The exceptions the modelled Python code can raise, by the name Python gives them. */
  datatype Exception =
    | KeyError
    | IndexError
    | ZeroDivisionError
    | ValueError
    | AssertionError(message: string)

  datatype Result<+T> = Success(value: T) | Failure(error: Exception)
}
