/** The Python exceptions the modelled code raises, and the result types
    that carry them in place of a raise. */
module Results {

  /** One constructor per Python exception class raised by the modelled code. */
  datatype Error =
    | AssertionError(message: string)
    | KeyError(arg: string)
    | IndexError
    | TypeError(message: string)
    | ValueError(message: string)
    | AttributeError(attribute: string)
    | NotImplementedError(message: string)
    | ConstError(message: string)
    | OSError(message: string)

  /** Python's `None` or a value. */
  datatype Option<+T> = None | Some(value: T)

  /** A call that returns a value or raises. */
  datatype Result<+T> = Ok(value: T) | Err(error: Error)

  /** A call that returns nothing or raises. */
  datatype Outcome = Pass | Fail(error: Error)
}
