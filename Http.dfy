/** The JSON replies of the Express route handlers, by status code, and the
    JavaScript truthiness tests the handlers apply to request fields. */
module Http {
  import opened Relational

  /** A reply: 200 with a body, or an error status with its `error` message. */
  datatype Response<T> =
    | Ok(value: T)
    | BadRequest400(error: string)
    | NotFound404(error: string)
    | Failed500(error: string)

  /** The body `{ success: true }`. */
  datatype Success = Success

  /** A request text field that is absent or empty is falsy (`!field`). */
  predicate Missing(v: Option<string>)
  {
    v.None? || v.value == ""
  }

  /** `field || fallback` for a text field. */
  function TextOr(v: Option<string>, fallback: string): (r: string)
    ensures Missing(v) ==> r == fallback
    ensures !Missing(v) ==> r == v.value && r != ""
  {
    if Missing(v) then fallback else v.value
  }

  /** A request number field that is absent or zero is falsy. */
  predicate MissingNumber(v: Option<real>)
  {
    v.None? || v.value == 0.0
  }

  /** `field || fallback` for a number field. */
  function NumberOr(v: Option<real>, fallback: real): (r: real)
    ensures MissingNumber(v) ==> r == fallback
    ensures !MissingNumber(v) ==> r == v.value && r != 0.0
  {
    if MissingNumber(v) then fallback else v.value
  }

  /** `field || null` for a number field: a falsy number is stored as NULL. */
  function NumberOrNull(v: Option<real>): (r: Option<real>)
    ensures r.None? <==> MissingNumber(v)
    ensures r.Some? ==> r == v
  {
    if MissingNumber(v) then None else v
  }
}
