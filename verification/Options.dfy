/** A value that may be missing, or a call that may refuse. */
module Options {
  datatype Option<T> = None | Some(value: T)
}
