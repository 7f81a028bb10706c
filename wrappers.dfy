/** Rust's `Option`, shared by the message records and the game state. */
module Wrappers {
  datatype Option<+T> = None | Some(value: T)
}
