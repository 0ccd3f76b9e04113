/** Optional values, standing in for the `null`-able fields of a request payload. */
module Wrappers {

  datatype Option<+T> = None | Some(value: T)
}
