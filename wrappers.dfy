/** Optional values: a JavaScript `undefined` or a missing key is `None`. */
module Wrappers {
  datatype Option<+T> = None | Some(value: T)
}
