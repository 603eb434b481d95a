/** The optional value used by the decoders (Rust's `core::option::Option`). */
module Wrappers {

  datatype Option<+T> = None | Some(value: T)
}
