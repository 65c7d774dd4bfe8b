/** The optional value used for the pending-tick handle. */
module Wrappers {
  datatype Option<+T> = None | Some(value: T)
}
