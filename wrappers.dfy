/** Optional values, used for the request header that may be absent. */
module Wrappers {

  datatype Option<+T> = None | Some(value: T)
}
