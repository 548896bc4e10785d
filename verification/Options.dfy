/** The optional values used throughout: `undefined`, a missing map entry, an absent signal. */
module Options {
  datatype Option<+T> = None | Some(value: T)
}
