/** A value that may be missing: NULL or nil in the sources. */
module Options {
  datatype Option<+T> = None | Some(value: T)
}
