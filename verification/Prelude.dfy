/** The option type the other modules share. */
module Prelude {
  datatype Option<+T> = None | Some(value: T)
}
