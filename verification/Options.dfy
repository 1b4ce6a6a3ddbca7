/** A value that may be absent, shared by the modules of this project. */
module Options {
  datatype Option<+T> = None | Some(value: T)
}
