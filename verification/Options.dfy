/** The usual optional value: `None` is a run that asked for a disabled step. */
module Options {
  datatype Option<+T> = None | Some(value: T)
}
