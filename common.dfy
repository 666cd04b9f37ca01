/** Values shared by every part of the model: optional values, results, and the
    JavaScript truthiness test the route handlers apply to request fields. */
module Common {

  /** A field of a request body or query string that may be absent (`undefined` or `null`). */
  datatype Option<T> = None | Some(value: T)

  /** The outcome of an operation that can fail with an error of type E. */
  datatype Result<T, E> = Ok(value: T) | Err(error: E)

  /** `!!field` for a string-valued field: absent and empty strings are falsy. */
  predicate Truthy(field: Option<string>)
  {
    field.Some? && field.value != ""
  }

  /** `field || fallback` for a string-valued field. */
  function OrElse(field: Option<string>, fallback: string): string
  {
    if Truthy(field) then field.value else fallback
  }

  /** `a` is `b` with some elements left out and the rest kept in order. */
  predicate Subsequence<T(==)>(a: seq<T>, b: seq<T>)
    decreases |b|
  {
    if a == [] then true
    else if b == [] then false
    else (a[0] == b[0] && Subsequence(a[1..], b[1..])) || Subsequence(a, b[1..])
  }
}
