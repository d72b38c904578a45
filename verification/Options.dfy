/** A value that may be absent: Go's nil pointers and SQL's NULL. */
module Options {
  datatype Option<+T> = None | Some(value: T)
}
