/** JavaScript value conventions shared by the server and the pages:
    `undefined` as an option, string truthiness, the `||` default idiom
    and the truncating remainder operator. */
module JsValues {

  /** A value that may be `undefined` (a missing request field, a missing key). */
  datatype Option<T> = None | Some(value: T)

  /** A string is truthy in JavaScript iff it is defined and non-empty. */
  predicate Truthy(s: Option<string>)
  {
    s.Some? && |s.value| > 0
  }

  /** `s || fallback` for a possibly missing string. */
  function OrElse(s: Option<string>, fallback: string): (r: string)
    ensures Truthy(s) ==> r == s.value
    ensures !Truthy(s) ==> r == fallback
  {
    if Truthy(s) then s.value else fallback
  }

  /** JavaScript's `a % n` for a positive divisor: the result takes the sign
      of the dividend (truncated division), unlike Dafny's Euclidean `%`. */
  function JsRem(a: int, n: int): (r: int)
    requires n > 0
    ensures a >= 0 ==> r == a % n
    ensures a < 0 ==> -n < r <= 0
  {
    if a >= 0 then a % n else -((-a) % n)
  }
}
