/** A value that may be absent: the model of None and NULL. */
module Options {
  datatype Option<+T> = None | Some(value: T)
}
