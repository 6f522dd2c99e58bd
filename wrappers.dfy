/** Optional values, used where the original returns `Option` or fails. */
module Wrappers {

  datatype Option<+T> = None | Some(value: T)
}
