/** A value that may be missing: no lease, no bundle, no parent. */
module Options {
  datatype Option<+T> = None | Some(value: T)
}
