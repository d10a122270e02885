/** Failure-carrying values shared by every module of the model. */
module Wrappers {

  /** Python's `None` or a present value. */
  datatype Option<+T> = None | Some(value: T)

  /** The outcome of a Python call that either returns a value or raises an
      exception; `message` is the exception's `str(e)`. */
  datatype Result<+T> = Ok(value: T) | Raised(message: string)
}
