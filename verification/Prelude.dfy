/** Identifiers, optional values and results shared by every module. */
module Prelude {

  /** A database identifier. Only equality of identifiers matters. */
  type Id = nat

  /** A point in time, or a length of time, in milliseconds. */
  type Time = int

  datatype Option<+T> = None | Some(value: T)

  /** The outcome of an operation that throws in the services. */
  datatype Result<+T, +E> = Ok(value: T) | Err(error: E)
}
