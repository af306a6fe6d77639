/** The result type shared by the partial lookups of the model. */
module Wrappers {
  datatype Option<+T> = None | Some(value: T)
}
