/** The optional value used for request fields, cookies and lookups that may find nothing. */
module Wrappers {

  datatype Option<+T> = None | Some(value: T)

  /** Whether an optional string is truthy in JavaScript: present and not the empty string. */
  predicate Truthy(s: Option<string>) {
    s.Some? && s.value != ""
  }
}
