/** Optional values, standing in for attributes and JSON fields that may be
    absent (JavaScript `null` / `undefined`). */
module Wrappers {

  datatype Option<+T> = None | Some(value: T)
}
