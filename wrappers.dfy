/** Optional values and fallible results, used for the JavaScript `undefined`/`NaN`
    cases and for operations that can throw. */
module Wrappers {
  datatype Option<+T> = None | Some(value: T)

  datatype Result<+T, +E> = Success(value: T) | Failure(error: E)
}
