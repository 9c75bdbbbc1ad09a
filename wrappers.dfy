/**
  Optional values, used where the source yields `undefined`, `null` or an invalid value, and
  results, used where a validator either accepts a value or reports what is wrong with it.
*/
module Wrappers {

  datatype Option<+T> = None | Some(value: T)

  datatype Result<+T, +E> = Ok(value: T) | Err(error: E)
}
