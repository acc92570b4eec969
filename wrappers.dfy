/** Optional values, used where the source keeps a null pointer or an "absent" result. */
module Wrappers {
  datatype Option<T> = None | Some(value: T)
}
