/** The option type shared by the models. */
module Wrappers {
  /** `undefined` in the extension, `None` in the Rust host. */
  datatype Option<+T> = None | Some(value: T)
}
