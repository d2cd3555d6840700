/** Optional values and success-or-failure results, used wherever the admin tool
    has `null`, a missing field, or an action that is refused. */
module Wrappers {

  datatype Option<+T> = None | Some(value: T)

  datatype Result<+R, +E> = Success(value: R) | Failure(error: E)
}
