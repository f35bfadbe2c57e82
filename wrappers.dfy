/** Optional values, used where the programs report a parse failure. */
module Wrappers {
  datatype Option<+T> = None | Some(value: T)
}
