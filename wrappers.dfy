/** Optional values: JavaScript's `undefined` / `null` versus a present value. */
module Wrappers {

  datatype Option<+T> = None | Some(value: T)

  /** JavaScript truthiness of an optional string: present and non-empty. */
  predicate Truthy(s: Option<string>)
  {
    s.Some? && s.value != ""
  }

  /** JavaScript truthiness of an optional boolean: present and `true`. */
  predicate IsTrue(b: Option<bool>)
  {
    b == Some(true)
  }
}
