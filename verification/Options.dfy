/** The optional value used where the source has a nullable column or a nil pointer. */
module Options {
  datatype Option<+T> = None | Some(value: T)
}
