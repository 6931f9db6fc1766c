/** The optional-value wrapper used for nullable entity fields and nullable contract results. */
module Wrappers {

  datatype Option<+T> = None | Some(value: T)
}
