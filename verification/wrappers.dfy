/** Optional values, used wherever the source has a value that may be absent
    (`null` in JavaScript, `None` in Python, a missing dictionary key). */
module Wrappers {

  datatype Option<+T> = None | Some(value: T)
}
