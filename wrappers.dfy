/** Optional values, used for JavaScript's NaN and for fields that may be absent. */
module Wrappers {

  datatype Option<+T> = None | Some(value: T)
}
