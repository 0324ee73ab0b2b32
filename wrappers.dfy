// Option, for the values the scripts hold as None.
module Wrappers {
  datatype Option<+T> = None | Some(value: T)

  /** Python's truth value of a text that may be `None`: present and not
      empty. */
  predicate Truthy(s: Option<string>) {
    s.Some? && s.value != ""
  }
}
