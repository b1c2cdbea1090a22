/** The optional result used by the transition systems and the decoders. */
module Options {
  datatype Option<+T> = None | Some(value: T)
}
