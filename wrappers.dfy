/** The optional value used for every `?.`-chained field and every nullable result. */
module Wrappers {

  datatype Option<+T> = None | Some(value: T)
}
