/** The optional value that stands for a pointer that may be null. */
module Options {
  datatype Option<+T> = None | Some(value: T)
}
