/** Optional values: the model's stand-in for Rust's `Option` and for writes
    that are silently dropped. */
module Wrappers {

  datatype Option<+T> = None | Some(value: T)
}
