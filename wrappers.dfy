/** Failure-aware result types shared by the phantom model. */
module Wrappers {

  datatype Option<+T> = None | Some(value: T)

  /** The Python exceptions the modelled paths raise. */
  datatype Error =
    | ValueError(message: string)
    | NameError(message: string)
    | TypeError(message: string)

  datatype Result<+T> = Success(value: T) | Failure(error: Error)
}
