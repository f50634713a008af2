/** Option and Result: the absent value (Python's None) and the raised exception. */
module Wrappers {

  datatype Option<+T> = None | Some(value: T)

  /** The exceptions the modelled code raises. */
  datatype Error =
    | FileNotFoundError(message: string)
    | FileExistsError(message: string)
    | ValueError(message: string)
    | IndexError
    | TypeError(message: string)

  datatype Result<+T> = Ok(value: T) | Err(error: Error)
}
