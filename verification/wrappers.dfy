/** The optional values of the model: Python's `None` or a present value. */
module Wrappers {

  /** `None` stands for Python's `None`; `Some(v)` for a present value `v`. */
  datatype Option<+T> = None | Some(value: T)
}
