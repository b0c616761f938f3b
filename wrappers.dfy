/** Optional values: a browser measurement that may be missing, a drag session that may be closed. */
module Wrappers {
  datatype Option<+T> = None | Some(value: T)
}
