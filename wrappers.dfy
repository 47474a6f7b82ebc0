/** The optional value used wherever the crawlers produce "a record or nothing". */
module Wrappers {

  datatype Option<+T> = None | Some(value: T)
}
