/** The optional value of the source's nullable and optional fields. */
module Wrappers {

  datatype Option<+T> = None | Some(value: T)
}
