/** Optional values: an argument the caller may leave out, a result that may not exist. */
module Wrappers {
  datatype Option<T> = None | Some(value: T)
}
