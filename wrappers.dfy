/** The optional value used wherever the source uses `null` or a missing result. */
module Wrappers {
  datatype Option<+T> = None | Some(value: T)
}
