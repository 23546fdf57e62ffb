/** A value that may be absent: the source's NULL for pointers and for results. */
module Optional {
  datatype Option<+T> = None | Some(value: T)
}
