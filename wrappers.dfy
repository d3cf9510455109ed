/** Optional values, used where the Go code returns a value or nil. */
module Wrappers {

  datatype Option<+T> = None | Some(value: T)
}
