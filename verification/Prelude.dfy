/** The option type shared by both halves of the project. */
module Prelude {
  datatype Option<+T> = None | Some(value: T)
}
