/** The optional value used for lookups that Python would abort with an exception. */
module Wrappers {
  datatype Option<+T> = None | Some(value: T)
}
