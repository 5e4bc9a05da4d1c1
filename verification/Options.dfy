/** The optional value of a nullable column or a missing field. */
module Options {
  datatype Option<+T> = None | Some(value: T)
}
