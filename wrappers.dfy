/** Optional values, shared by the task records and the profile snapshot. */
module Wrappers {

  /** A value that may be absent, as an unset document field is. */
  datatype Option<T> = None | Some(value: T)
}
