/** The optional value used throughout the models (a missing row, a nil pointer). */
module Options {
  datatype Option<+T> = None | Some(value: T)
}
