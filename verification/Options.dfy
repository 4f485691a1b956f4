/** The Go zero-or-one results (nil, or a comma-ok lookup) as a datatype. */
module Options {
  datatype Option<+T> = None | Some(value: T)
}
