/** The optional-value type shared by every module of the model. */
module Wrappers {
  /** `Option` as in Rust: a value that may be absent. */
  datatype Option<+T> = None | Some(value: T)
}
