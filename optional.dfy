/** A value that may be absent: Java's nullable references. */
module Optional {
  datatype Option<T> = None | Some(value: T)
}
