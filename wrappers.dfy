/** Optional values: a field or parameter that may be absent (undefined or null). */
module Wrappers {

  datatype Option<+T> = None | Some(value: T)

  /** JavaScript truthiness of an optional string: absent and "" are both falsy. */
  predicate Present(x: Option<string>)
  {
    x.Some? && x.value != ""
  }
}
