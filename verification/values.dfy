/** JavaScript-flavoured values used throughout the model: an optional value
    (a field that may be `null`, `undefined` or absent), the outcome of a step
    that may throw an `Error` carrying a message, and the truthiness test that
    the source applies to optional strings (`x || fallback`, `if (x)`). */
module Values {

  /** A value that may be missing (`null` / `undefined` in the source). */
  datatype Option<+T> = None | Some(value: T)

  /** The outcome of a step that either returns a value or throws an `Error`
      whose `message` is kept. */
  datatype Result<+T> = Ok(value: T) | Err(message: string)

  /** JavaScript truthiness of an optional string: present and non-empty. */
  predicate Truthy(o: Option<string>) {
    o.Some? && o.value != ""
  }

  /** `o || fallback` for an optional string. */
  function Or(o: Option<string>, fallback: string): (r: string)
    ensures Truthy(o) ==> r == o.value
    ensures !Truthy(o) ==> r == fallback
  {
    if Truthy(o) then o.value else fallback
  }

  /** `s || fallback` for a string that is always present. */
  function OrElse(s: string, fallback: string): (r: string)
    ensures s != "" ==> r == s
    ensures s == "" ==> r == fallback
  {
    if s != "" then s else fallback
  }

  /** `o || other` where both sides are optional strings (a falsy result is
      kept as it is, as JavaScript does). */
  function OrOption(o: Option<string>, other: Option<string>): (r: Option<string>)
    ensures Truthy(o) ==> r == o
    ensures !Truthy(o) ==> r == other
  {
    if Truthy(o) then o else other
  }
}
