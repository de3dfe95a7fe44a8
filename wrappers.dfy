/** Option and Result: the error paths of the pipeline (a Python exception
    that aborts a stage becomes a Failure carrying the exception's name). */
module Wrappers {

  datatype Option<+T> = None | Some(value: T)

  datatype Result<+T> = Success(value: T) | Failure(error: string)
}
