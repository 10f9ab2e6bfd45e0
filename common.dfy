/** Values shared by every controller: identifiers, optional values, the
    replies a handler sends, and the few JavaScript conversions the handlers
    apply to request fields. */
module Common {

  /** Row identifiers. The store hands them out in increasing order, so a
      larger id is a newer row (the handlers' `createdAt desc` ordering). */
  type Id = nat

  /** A clock reading (`new Date()`), supplied by the caller of a handler. */
  type Timestamp = int

  datatype Option<+T> = None | Some(value: T)

  /** What a handler sends back: a success status with a body, or a failure
      status with an error. The error is a message, except for the payment
      amount mismatch, whose message interpolates the expected values. */
  datatype Error =
    | Msg(text: string)
    | AmountMismatch(expected: real, wagePerDay: real, duration: int)

  datatype Reply<+T> = Ok(code: int, value: T) | Fail(code: int, error: Error)

  /** The authenticated principal of a request (`req.user`): the token's
      user id and role claim. */
  datatype Caller = Caller(userId: Id, role: Role)

  datatype Role = WORKER | FARMER | ADMIN

  /** The result of `parseInt` / `parseFloat`: a number or NaN. */
  datatype Parsed<+T> = NaN | Value(v: T)

  /** A numeric request field: falsy (absent, null, 0, "") or truthy, in which
      case the handler parses it. */
  datatype Arg<+T> = Falsy | Truthy(parsed: Parsed<T>)

  /** JavaScript truthiness of an optional string field. */
  predicate Given(f: Option<string>)
  {
    f.Some? && f.value != ""
  }

  /** A field of a partial update: the supplied value, or the stored one
      when the field is left out. */
  function OrElse<T>(o: Option<T>, default: T): (r: T)
    ensures o.Some? ==> r == o.value
    ensures o.None? ==> r == default
  {
    if o.Some? then o.value else default
  }

  /** The two messages every handler shares: no `req.user` (401) and the
      outer `catch` of a thrown store or transaction error (500). */
  const UNAUTHORIZED := Msg("Unauthorized")
  const INTERNAL_ERROR := Msg("Internal server error")
}
