/** Optional values, used for a callback slot that may be empty and for a search that may fail. */
module Wrappers {

  datatype Option<+T> = None | Some(value: T)

}
