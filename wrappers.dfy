/** The outcome of an operation that the original program ends with an exception. */
module Wrappers {

  datatype Result<T, E> = Ok(value: T) | Err(error: E)
}
