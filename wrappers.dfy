/** The optional value used where the page reads a number that may not parse. */
module Wrappers {

  datatype Option<+T> = None | Some(value: T)
}
