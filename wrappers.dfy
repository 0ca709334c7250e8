/** The optional value used for Python's `None`-or-value results. */
module Wrappers {

  datatype Option<T> = None | Some(value: T)

  /** Python's truth value of an optional string: `None` and `""` are
      false. */
  predicate Truthy(o: Option<string>)
  {
    o.Some? && o.value != ""
  }
}
