/**
 * What an Express handler sends back, as a value: each constructor stands for
 * one status code and its JSON body.
 */
module Http {
  import opened Wrappers

  datatype Outcome<T> =
    | Created(body: T)                        // 201 with the saved document
    | Ok(body: T)                             // 200 (res.json)
    | BadRequest(message: string)             // 400 {message}
    | NotFound(message: string)               // 404 {message}
    | ServerError(message: string, error: string)  // 500 {message, error}

  function Status<T>(o: Outcome<T>): nat {
    match o
    case Created(_) => 201
    case Ok(_) => 200
    case BadRequest(_) => 400
    case NotFound(_) => 404
    case ServerError(_, _) => 500
  }

  /** JavaScript's `!field` on an optional string body field: absent, null or "". */
  predicate Falsy(field: Option<string>) {
    field.None? || field.value == ""
  }

  /** JavaScript's `field || null`: a falsy field becomes null, any other is kept. */
  function OrNull(field: Option<string>): (r: Option<string>)
    ensures r.None? <==> Falsy(field)
    ensures r.Some? ==> r == field && r.value != ""
  {
    if Falsy(field) then None else field
  }
}
