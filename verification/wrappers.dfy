/** Optional values and results, used for absent document fields and for
    operations that can fail. */
module Wrappers {

  /** A value that may be absent, such as a document field that is left out
      or null where the two are treated alike. */
  datatype Option<+T> = None | Some(value: T)

  /** Either a value or an error. */
  datatype Result<+R, +E> = Success(value: R) | Failure(error: E)
}
