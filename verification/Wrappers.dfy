/** The optional value used where the C code passes a possibly null pointer. */
module Wrappers {
  datatype Option<+T> = None | Some(value: T)
}
