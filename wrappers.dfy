/** The optional value used wherever the source returns `None` or keeps a
    "no result yet" marker. */
module Wrappers {
  datatype Option<+T> = None | Some(value: T)
}
