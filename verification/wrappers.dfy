/** The optional value used where the library passes a possibly-null reference. */
module Wrappers {

  datatype Option<+T> = None | Some(value: T)
}
