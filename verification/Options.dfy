/** The optional value used throughout: a nullable column, a missing map entry, a failed lookup. */
module Options {
  datatype Option<+T> = None | Some(value: T)
}
