/** Optional values, standing in for Go's nil pointers and absent JSON fields. */
module Wrappers {

  datatype Option<+T> = None | Some(value: T)
}
