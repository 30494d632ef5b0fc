/** What the route handlers read from a Next.js request: query parameters and the method. */
module Http {
  import opened Text

  /** A value of `req.query`: absent, given once, or repeated (an array). */
  datatype QueryParam = Absent | Single(value: string) | Multi(values: seq<string>)

  /** JavaScript falsiness of a query value: `undefined` and `""` are falsy, an
      array is truthy even when empty. */
  predicate Falsy(p: QueryParam) {
    p.Absent? || p == Single("")
  }

  /** The branch of a handler's `switch (req.method)`. */
  datatype Route = Get | Post | Put | Delete | Unsupported

  function RouteOf(verb: Option<string>): (r: Route)
    ensures r == Get <==> verb == Some("GET")
    ensures r == Post <==> verb == Some("POST")
    ensures r == Put <==> verb == Some("PUT")
    ensures r == Delete <==> verb == Some("DELETE")
  {
    match verb
    case Some("GET") => Get
    case Some("POST") => Post
    case Some("PUT") => Put
    case Some("DELETE") => Delete
    case _ => Unsupported
  }
}
