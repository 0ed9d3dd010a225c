/** Optional values: an element that may be missing from the page, a configuration field that may be unset. */
module Wrappers {

  datatype Option<+T> = None | Some(value: T)
}
