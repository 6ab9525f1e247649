/** The optional value of a request field or of an attribute that may be missing. */
module Wrappers {

  datatype Option<+T> = None | Some(value: T)
}
