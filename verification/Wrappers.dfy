/** The one general-purpose datatype the other modules share. */
module Wrappers {
  datatype Option<+T> = None | Some(value: T)
}
