/** Optional values: a JavaScript `null` detail, a missing header, a missing error. */
module Wrappers {

  datatype Option<+T> = None | Some(value: T)
}
