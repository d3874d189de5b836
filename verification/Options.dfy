/** An optional value, shared by the modules that need one. */
module Options {
  datatype Option<+T> = None | Some(value: T)
}
