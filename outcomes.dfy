/** The exceptions the modelled code raises, and a result type that carries them. */
module Outcomes {

  /** The Python exception classes raised by the core. */
  datatype Error = IndexError | TypeError | ValueError | KeyError

  /** The value of a call that either returns or raises. */
  datatype Result<T> = Ok(value: T) | Err(error: Error)

  datatype Option<T> = None | Some(value: T)
}
