/** Values that every request handler shares: optional values, request-body
    members as JavaScript sees them, and the status/body pair a handler sends. */
module Http {

  datatype Option<+T> = None | Some(value: T)

  /** A member of a JSON request body after destructuring: missing
      (`undefined`), an explicit `null`, or a string. */
  datatype Field = Undefined | Null | Str(s: string)

  /** JavaScript truthiness of a body member, as tested by `if (!content)`:
      only a non-empty string is truthy. */
  predicate Truthy(f: Field)
  {
    f.Str? && f.s != ""
  }

  /** JavaScript truthiness of an optional string such as the token subject
      `req.auth?.payload.sub` or a token claim. */
  predicate Present(o: Option<string>)
  {
    o.Some? && o.value != ""
  }

  /** The SQL value node-postgres binds for a body member: `undefined` and
      `null` both become NULL. */
  function Bound(f: Field): Option<string>
  {
    if f.Str? then Some(f.s) else None
  }

  /** What a handler sends: a success status with its JSON body, or an error
      status with the `message` of its JSON (or plain-text) body. */
  datatype Reply<+T> = Ok(status: int, value: T) | Err(status: int, message: string)
}
