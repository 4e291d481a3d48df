/** The Option datatype: `None` marks a template instantiation or a lookup that is ill-formed. */
module Wrappers {

  datatype Option<+T> = None | Some(value: T)
}
