/** Optional values, standing in for the nullable pointers and handles of the samples. */
module Wrappers {

  datatype Option<+T> = None | Some(value: T)
}
