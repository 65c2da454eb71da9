/** Optional values: a JavaScript argument that may be `null` or `undefined`. */
module Wrappers {
  datatype Option<+T> = None | Some(value: T)
}
