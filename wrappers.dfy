/** Optional values, used where the source returns null or a default. */
module Wrappers {
  datatype Option<T> = None | Some(value: T)
}
