/** Failure-carrying wrappers shared by the store and the dashboard. */
module Wrappers {

  /** An optional value: a button press that may or may not have happened. */
  datatype Option<+T> = None | Some(value: T)

  /** The outcome of a store operation: a value, or the error the driver raises. */
  datatype Result<+T, +E> = Ok(value: T) | Err(error: E)
}
