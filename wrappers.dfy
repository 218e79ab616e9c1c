/** Optional values, used wherever the source returns "a value or a failure". */
module Wrappers {
  datatype Option<T> = None | Some(value: T)
}
