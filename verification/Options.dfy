/** Values that may be absent: nullable columns, missing keys, failed look-ups. */
module Options {
  datatype Option<+T> = None | Some(value: T)
}
