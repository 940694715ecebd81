/** Success-or-failure values: a checked exception of the source becomes an Err. */
module Wrappers {

  datatype Result<+V, +E> = Ok(value: V) | Err(error: E)
}
