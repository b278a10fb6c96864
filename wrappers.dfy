/** Python's None, as an option value. */
module Wrappers {

  /** `None` stands for Python's `None`, in particular for a value that an
      exception replaced; `Some(v)` for a value that was produced. */
  datatype Option<+T> = None | Some(value: T)
}
