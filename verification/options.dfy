/** The usual optional-value datatype, standing for Python's `None` and for absent dictionary keys. */
module Options {
  datatype Option<+T> = None | Some(value: T)
}
