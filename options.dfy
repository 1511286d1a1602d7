/** The optional value used where the source either produces a value or raises. */
module Options {
  datatype Option<T> = None | Some(value: T)
}
