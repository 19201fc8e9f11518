/** The optional-value wrapper used for the nil-able pointer fields of the task types. */
module Wrappers {

  /** `None` stands for a nil pointer, `Some(v)` for a pointer to `v`. */
  datatype Option<+T> = None | Some(value: T)
}
