/** Optional values: JavaScript's `null` beside a value. */
module Wrappers {

  datatype Option<+T> = None | Some(value: T)
}
