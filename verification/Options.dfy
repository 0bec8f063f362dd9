/** A pointer that may be NULL, and what it points to. */
module Options {
  datatype Option<T> = None | Some(value: T)
}
