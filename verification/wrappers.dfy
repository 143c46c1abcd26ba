/** The optional-value datatype used by the scanning functions of the model. */
module Wrappers {

  /** `None` when a search finds nothing, `Some(v)` when it finds `v`. */
  datatype Option<+T> = None | Some(value: T)
}
