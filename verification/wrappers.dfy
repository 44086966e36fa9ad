/** The optional value the modules share: the corpus, which is missing when
    its file cannot be opened, and the results of decoding and of building the
    sampling table. */
module Wrappers {
  datatype Option<T> = None | Some(value: T)
}
