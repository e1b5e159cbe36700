/** A value that may be absent: a packet that is dropped, a frame that does not decode. */
module Wrappers {
  datatype Option<+T> = None | Some(value: T)
}
