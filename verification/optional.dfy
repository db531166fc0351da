/** The optional-value datatype used for the parsers the controller relies on. */
module Optional {

  /** `None` stands for a Python exception raised by a conversion; `Some(v)` for its value. */
  datatype Option<+T> = None | Some(value: T)
}
