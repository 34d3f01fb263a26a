/** The one optional-value type shared by every module: a nullable column is an Option. */
module Options {
  datatype Option<+T> = None | Some(value: T)
}
