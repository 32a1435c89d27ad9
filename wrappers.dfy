/** Optional values: the Python code's "may be absent" (a missing key, a failed parse). */
module Wrappers {

  datatype Option<+T> = None | Some(value: T)

}
