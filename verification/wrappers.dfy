/** Optional values: a header that may be absent, an endpoint file that may be unset. */
module Wrappers {

  datatype Option<+T> = None | Some(value: T)
}
