/** Python exceptions raised by the calculators, carried as values. */
module Outcomes {

  /** The exceptions the modelled Python code can raise. */
  datatype Error =
    | ZeroDivisionError
    | ValueError(message: string)
    | UnboundLocalError(name: string)

  /** Either the value a Python call returns or the exception it raises. */
  datatype Result<+T> = Ok(value: T) | Err(error: Error)

  /** Python's optional values (`None` or a value). */
  datatype Option<+T> = None | Some(value: T)
}
