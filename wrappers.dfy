/** The optional value used wherever the harness may find nothing. */
module Wrappers {

  datatype Option<+T> = None | Some(value: T)
}
