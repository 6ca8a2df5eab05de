/** The optional values that stand for C's NULL pointers and failed system calls. */
module Wrappers {
  datatype Option<+T> = None | Some(value: T)
}
