/** Failure-carrying values shared by the whole model.
    Every round trip to the hosted database is modelled by one of these:
    the caller receives it as a parameter instead of performing I/O. */
module Wrappers {

  /** JavaScript's `T | null` (and `T | undefined`). */
  datatype Option<+T> = None | Some(value: T)

  /** A database call that returns a row: the server-assigned part on success,
      the error message otherwise. */
  datatype Result<+T> = Ok(value: T) | Err(message: string)

  /** A database write whose only answer is "no error" or an error. */
  datatype Outcome = Pass | Fail(message: string)
}
