/** Option and Result, for values that JavaScript leaves `undefined` and for
    the exceptions the modelled code throws or catches. */
module Wrappers {

  datatype Option<+T> = None | Some(value: T)

  datatype Result<+T, +E> = Ok(value: T) | Err(error: E)

  /** JavaScript truthiness of an optional string: defined and not "". */
  predicate Truthy(o: Option<string>)
  {
    o.Some? && o.value != ""
  }
}
