/** The optional value used for handles that may be undefined and for lookups that may miss. */
module Options {
  datatype Option<+T> = None | Some(value: T)
}
