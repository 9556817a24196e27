/** The optional value used wherever the source works with a reference that may be null. */
module Wrappers {

  /** `None` stands for a null reference, `Some(v)` for a non-null one. */
  datatype Option<+T> = None | Some(value: T)
}
