/** A value that may be missing, used for the optional fields of the command's argument. */
module Wrappers {
  datatype Option<+T> = None | Some(value: T)
}
