/** Optional values: a field that may be absent from a stored record. */
module Wrappers {

  datatype Option<+T> = None | Some(value: T)
}
