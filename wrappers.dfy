/** Optional values and results shared by every module. */
module Wrappers {
  datatype Option<T> = None | Some(value: T)

  /** An operation that either yields a value or fails the way the source
      does (an exception it raises, or `sys.exit`). */
  datatype Result<T> = Ok(value: T) | Err(reason: string)
}
