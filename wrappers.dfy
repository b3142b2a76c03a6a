/** Optional values, standing in for Go's nil-able `error` and for searches that may find nothing. */
module Wrappers {
  datatype Option<+T> = None | Some(value: T)
}
