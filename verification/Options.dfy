/** A value that may be absent: a null pointer, an unset variable. */
module Options {
  datatype Option<+T> = None | Some(value: T)
}
