/** The optional-value datatype used for missing cells and for "no selection". */
module Wrappers {

  datatype Option<+T> = None | Some(value: T)
}
