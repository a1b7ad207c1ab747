/** Optional values, standing for the source's `Nullable<T>` and `undefined`. */
module Wrappers {
  datatype Option<+T> = None | Some(value: T)
}
