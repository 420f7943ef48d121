/** Optional values, used by every part of the model. */
module Wrappers {

  datatype Option<+T> = None | Some(value: T)
}
