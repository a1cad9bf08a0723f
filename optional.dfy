/** The Option datatype used for JavaScript's `null` / `undefined` and for searches that may miss. */
module Optional {
  datatype Option<+T> = None | Some(value: T)
}
