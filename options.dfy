/** The optional value a lookup returns: `Option<usize>` in the source. */
module Options {
  datatype Option<+T> = None | Some(value: T)
}
