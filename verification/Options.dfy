/** The usual optional value, for results that the source returns as `None`. */
module Options {
  datatype Option<+T> = None | Some(value: T)
}
