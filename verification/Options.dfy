/** A value that may be missing: the source's `null`, `None` and `undefined`. */
module Options {
  datatype Option<+T> = None | Some(value: T)
}
