/** A value that may be absent: Python's None, as a datatype. */
module Options {

  datatype Option<+T> = None | Some(value: T)
}
