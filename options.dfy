/** An optional value, for Python's `None` and for operations that raise. */
module Options {
  datatype Option<+T> = None | Some(value: T)
}
