/** The optional value used where the compiler returns null or false. */
module Wrappers {

  datatype Option<+T> = None | Some(value: T)
}
