/** The optional value used wherever the source has `None` or an exception path. */
module Options {
  datatype Option<+T> = None | Some(value: T)
}
