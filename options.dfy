/** The usual optional value, used for Python's "value or absent" results. */
module Options {
  datatype Option<+T> = None | Some(value: T)
}
