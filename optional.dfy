/** A value that may be absent; used for operations of the source that throw. */
module Optional {
  datatype Option<+T> = None | Some(value: T)
}
