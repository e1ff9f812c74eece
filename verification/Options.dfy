/** The optional value shared by the models: a Go pointer or map lookup that may be absent. */
module Options {
  datatype Option<+T> = None | Some(value: T)
}
