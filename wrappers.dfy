/** Optional values and results with an error, used wherever the program
    can fail (a date string that does not parse, a dictionary key that is missing). */
module Wrappers {

  datatype Option<+T> = None | Some(value: T)

  datatype Result<+T, +E> = Success(value: T) | Failure(error: E)
}
