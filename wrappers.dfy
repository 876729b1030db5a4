/** Optional values, used for JavaScript's `undefined` and for search results. */
module Wrappers {

  datatype Option<+T> = None | Some(value: T)

}
