/** Values that may be missing: a nil pointer, a failed parse, an absent map entry. */
module Options {

  datatype Option<+T> = None | Some(value: T)
}
