/** Optional values and error-carrying results, used for TypeScript's `?:`
    fields, `undefined`, and thrown errors. */
module Wrappers {

  /** An optional value: `None` stands for an absent key or `undefined`. */
  datatype Option<+T> = None | Some(value: T)

  /** The outcome of an operation that may throw. */
  datatype Result<+R, +E> = Success(value: R) | Failure(error: E)

  /** Object-spread override of one key: the update's value if it has the key,
      otherwise the previous value. */
  function Override<T>(update: Option<T>, previous: Option<T>): Option<T> {
    if update.Some? then update else previous
  }
}
