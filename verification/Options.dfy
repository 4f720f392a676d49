/** A value that may be missing: an error return, an absent key, a nil pointer. */
module Options {
  datatype Option<+T> = None | Some(value: T)
}
