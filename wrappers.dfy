/** Optional values, used for absent JSON fields, failed I/O and "no path" results. */
module Wrappers {

  datatype Option<+T> = None | Some(value: T)
}
