/** Optional values: a parse that may fail, a JSON field that may be null. */
module Wrappers {

  datatype Option<+T> = None | Some(value: T)
}
