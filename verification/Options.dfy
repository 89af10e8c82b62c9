/** The optional value used wherever the program has None, a missing key or an absent field. */
module Options {
  datatype Option<+T> = None | Some(value: T)
}
