/** The optional value returned by `MarkovChain::words` and `Words::next`. */
module Wrappers {

  datatype Option<+T> = None | Some(value: T)
}
