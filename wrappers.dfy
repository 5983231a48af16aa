/** Option, for Rust's `Option<T>`; `None` is the source's "absent" or "unknown" outcome. */
module Wrappers {
  datatype Option<+T> = None | Some(value: T)
}
