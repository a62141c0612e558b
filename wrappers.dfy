/** The optional value used wherever the source stores `null` or may find nothing. */
module Wrappers {

  datatype Option<+T> = None | Some(value: T)
}
