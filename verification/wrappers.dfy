/** Optional values, standing in for the source's nullable fields and `string | null`. */
module Wrappers {
  datatype Option<+T> = None | Some(value: T)
}
