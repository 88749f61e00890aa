/** Optional values: a missing result or a present one. */
module Wrappers {

  datatype Option<+T> = None | Some(value: T)

}
