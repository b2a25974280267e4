/** Option and Result types shared by every module of the model. */
module Wrappers {
  datatype Option<+T> = None | Some(value: T)

  /** The error side carries the reason the source reports (an exception message, an error return). */
  datatype Result<+T> = Ok(value: T) | Err(error: string)
  {
    predicate IsFailure() { Err? }
  }
}
