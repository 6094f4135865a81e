// A value that may be absent: SQL NULL, Python None, a free lock.
module Options {
  datatype Option<T> = None | Some(value: T)
}
