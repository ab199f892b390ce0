/**
 * The responses the handlers build with `json(body, init)`, and the signed
 * session token. A response without an explicit status is a 200. Headers are
 * those the handler passes; the content type `json` adds is not modelled.
 */
module Http {
  import opened Wrappers
  import Store

  /** The JOSE header of the session token. */
  datatype JoseHeader = JoseHeader(alg: string, typ: string)

  /** The token's claims: exactly these two, with no expiry. */
  datatype Claims = Claims(userId: nat, username: string)

  /** A token as `create(header, claims, key)` makes it; the signature itself is left out. */
  datatype Jwt = Jwt(header: JoseHeader, claims: Claims, key: string)

  datatype Body =
    | EmptyObject                           // {}
    | ErrorField(error: string)             // {error}
    | ErrorObject(message: string)          // a store error object, {message}
    | CommentList(comments: seq<Store.Comment>)  // {comments}
    | CommentData(comment: Store.Comment)   // {...commentData}
    | TokenField(token: Jwt)                // {token}

  datatype Response = Response(status: nat, body: Body, headers: seq<(string, string)>)

  const Ok: nat := 200
  const Created: nat := 201
  const BadRequest: nat := 400
  const ServerError: nat := 500

  /** `json(body)`: no status given, so 200, and no extra headers. */
  function Json(body: Body): Response {
    Response(Ok, body, [])
  }

  /** JavaScript truthiness of an optional string: present and not empty. */
  predicate Truthy(s: Option<string>) {
    s.Some? && s.value != ""
  }

  const SecretNotSet: string := "environment variable JWT_SIGNING_SECRET not set"
}
