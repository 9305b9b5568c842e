/** The optional result the Base16 decoder returns. */
module Wrappers {

  /** A value that may be absent, as a decoder that can reject its input returns. */
  datatype Option<+T> = None | Some(value: T)
}
