/** Option, for the source's `Option<T>` (Rust) and `None` results (Python). */
module Wrappers {
  datatype Option<+T> = None | Some(value: T)
}
