/** Optional values and results with an error, as the JavaScript code expresses them
    with `undefined` and with a thrown exception. */
module Wrappers {

  datatype Option<+T> = None | Some(value: T)

  datatype Result<+T, +E> = Success(value: T) | Failure(error: E)
}
