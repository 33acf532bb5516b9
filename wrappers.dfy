/** Optional values and the outcome of an operation that may throw. */
module Wrappers {

  /** A value that may be absent (TypeScript's `undefined` for an optional field). */
  datatype Option<+T> = None | Some(value: T)

  /** Either the operation completed, or it threw the given error. */
  datatype Outcome<+E> = Pass | Fail(error: E)
}
