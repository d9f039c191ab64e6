/** Optional values: a quote that may be unavailable, an argument that may be absent. */
module Wrappers {

  datatype Option<+T> = None | Some(value: T)

}
