/** Optional values, used where the source has `None`. */
module Wrappers {

  datatype Option<+T> = None | Some(value: T)
}
