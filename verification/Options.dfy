/** Results of operations that may fail. */
module Options {
  datatype Option<+T> = None | Some(value: T)
}
