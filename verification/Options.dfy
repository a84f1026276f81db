/** The optional value every model file shares. */
module Options {
  datatype Option<+T> = None | Some(value: T)
}
