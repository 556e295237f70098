/** Failure-carrying results shared by the modules of the model. */
module Wrappers {

  datatype Option<+T> = None | Some(value: T)

  /** The Python exceptions that the modelled code raises or lets escape. */
  datatype Error =
    | ValueError(message: string)
    | KeyError(key: string)
    | TypeError(message: string)
    | ZeroDivisionError
    | ArgumentError(message: string)  // the command-line parser rejects the arguments and exits

  datatype Result<+T> = Success(value: T) | Failure(error: Error)
}
