/** Optional values, results that may fail, and JavaScript numbers that may be NaN. */
module Wrappers {

  datatype Option<+T> = None | Some(value: T)

  datatype Result<+T, +E> = Ok(value: T) | Err(error: E)

  datatype Number = NaN | Num(value: real)
}
