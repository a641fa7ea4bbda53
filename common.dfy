/** Small shared vocabulary of the client pages. */
module Common {

  /** A value that may be absent (`null` / `undefined` on the page). */
  datatype Option<+T> = None | Some(value: T)

  /** JavaScript truthiness of a `string | null` value, such as the wallet
      address or a locale read from storage: both `null` and the empty
      string are falsy. */
  predicate IsTruthy(s: Option<string>)
  {
    s.Some? && s.value != ""
  }

  function Min(a: int, b: int): int
  {
    if a <= b then a else b
  }

  function Max(a: int, b: int): int
  {
    if a <= b then b else a
  }
}
