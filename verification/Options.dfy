/** A value that may be missing: the outcome of an operation that can fail. */
module Options {
  datatype Option<+T> = None | Some(value: T)
}
