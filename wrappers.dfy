/** The optional value used for results that the source signals with None or an exception. */
module Wrappers {

  datatype Option<+T> = None | Some(value: T)
}
