/** A value that may be absent: SQL NULL, `undefined`, a deleted row. */
module Options {
  datatype Option<+T> = None | Some(value: T)
}
