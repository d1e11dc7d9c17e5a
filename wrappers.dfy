/** Optional values and results, standing in for JavaScript's `undefined` and for
    the `process.exit(1)` path of the startup validation. */
module Wrappers {

  /** A value that may be absent (`undefined` or `null` in the bridge). */
  datatype Option<+T> = None | Some(value: T)

  /** A computation that either yields a value or fails with an error. */
  datatype Result<+T, +E> = Ok(value: T) | Err(error: E)
}
