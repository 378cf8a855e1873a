/** Values that may be missing, such as the target of a pointer that may be NULL. */
module Options {
  datatype Option<+T> = None | Some(value: T)
}
