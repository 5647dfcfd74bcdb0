/** Optional values: a DOM attribute or property that may be missing. */
module Wrappers {
  datatype Option<+T> = None | Some(value: T)
}
