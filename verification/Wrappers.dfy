/** The two containers the rest of the model is written with. */
module Wrappers {

  /** A pointer field that may be nil, or a lookup that may miss. */
  datatype Option<+T> = None | Some(value: T)
}
