/** Optional values, used for field lists a document may leave undefined. */
module Wrappers {

  /** A value that may be missing, like a declared field list that is `undefined`. */
  datatype Option<+T> = None | Some(value: T)
}
