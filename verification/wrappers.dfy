/** Optional values: JavaScript's `undefined` for a missing array component or map entry. */
module Wrappers {

  datatype Option<+T> = None | Some(value: T)
}
