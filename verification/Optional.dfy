/** A value that may be missing: a lookup that finds nothing, or an operation that throws. */
module Optional {

  datatype Option<+T> = None | Some(value: T)
}
