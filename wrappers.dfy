/** Optional values: `null`/`undefined` in the client become `None`. */
module Wrappers {
  datatype Option<+T> = None | Some(value: T)
}
