/** The absent-or-present value that stands for Python's `None` and `X | None`. */
module Options {
  datatype Option<+T> = None | Some(value: T)
}
