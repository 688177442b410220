/** Optional values, standing for JavaScript's `undefined`, and JavaScript truthiness of optional strings. */
module Wrappers {

  datatype Option<+T> = None | Some(value: T)

  /** `!!x` for a value that is either `undefined` or a string: the empty string is falsy too. */
  predicate Truthy(x: Option<string>)
  {
    x.Some? && x.value != ""
  }

  /** `a || b` where `a` is an optional string and `b` a string. */
  function OrElse(a: Option<string>, b: string): string
  {
    if Truthy(a) then a.value else b
  }
}
