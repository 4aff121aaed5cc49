/** Optional values: JavaScript's `null` / `undefined` and the outcome of a
    network call that may fail. */
module Wrappers {

  datatype Option<+T> = None | Some(value: T)
}
