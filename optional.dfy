/** The nullable `int?` that the navigator returns. */
module Optional {
  datatype Option<+T> = None | Some(value: T)
}
