/** The optional value every component uses for the source's `Option`. */
module Options {
  datatype Option<+T> = None | Some(value: T)
}
