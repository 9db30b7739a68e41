/** Option, the stand-in for TypeScript's optional / nullable values. */
module Wrappers {

  /** `None` plays the part of `null` or `undefined`. */
  datatype Option<+T> = None | Some(value: T)
}

/** The two pieces of JavaScript string semantics the core relies on:
    truthiness and the short-circuiting `||` operator. */
module Js {
  import opened Wrappers

  /** A possibly-absent string is truthy when it is present and not empty
      (`null`, `undefined` and `""` are all falsy). */
  predicate Truthy(o: Option<string>) {
    o.Some? && o.value != ""
  }

  /** `a || b` on two possibly-absent strings: the left operand when it is
      truthy, otherwise the right operand, whatever it is. */
  function Or(a: Option<string>, b: Option<string>): (r: Option<string>)
    ensures Truthy(a) ==> r == a
    ensures !Truthy(a) ==> r == b
  {
    if Truthy(a) then a else b
  }

  /** `a || b` with a string literal on the right. */
  function OrString(a: Option<string>, b: string): (r: string)
    ensures Truthy(a) ==> r == a.value
    ensures !Truthy(a) ==> r == b
  {
    Or(a, Some(b)).value
  }
}
