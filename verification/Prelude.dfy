/** The optional value every model below shares. */
module Prelude {
  datatype Option<+T> = None | Some(value: T)
}
