/** Option type for values that may be absent (a missing link, unreadable persisted state). */
module Wrappers {
  datatype Option<+T> = None | Some(value: T)
}
