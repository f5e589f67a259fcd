/** Optional values, used for the two touch coordinates that start out as `null`. */
module Wrappers {

  datatype Option<+T> = None | Some(value: T)
}
