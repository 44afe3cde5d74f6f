/** The optional value used for the record's nullable description. */
module Wrappers {
  datatype Option<+T> = None | Some(value: T)
}
