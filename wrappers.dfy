/** Optional values: a JSON field that may be null, a sort option that may be unknown. */
module Wrappers {

  datatype Option<+T> = None | Some(value: T)
}
