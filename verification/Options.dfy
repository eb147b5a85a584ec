/** A value that may be absent: the original's "X | None". */
module Options {

  datatype Option<+T> = None | Some(value: T)
}
