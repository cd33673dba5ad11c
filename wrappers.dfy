/** The optional value used for every "absent vs. found" outcome of the model. */
module Wrappers {
  datatype Option<+T> = None | Some(value: T)
}
