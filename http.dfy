/**
 * The HTTP exchanges with a Trillian, as values: the request the task builds
 * and the reply it receives. The network itself is a function parameter.
 */
module Http {
  import opened Json

  /** A request: verb, absolute URL, the Trillian's API token and the JSON body (`JNull` for none). */
  datatype Request = Request(verb: string, url: string, token: string, body: Json)

  /** A reply: status code and parsed JSON body. */
  datatype Reply = Reply(status: nat, body: Json)

  /** 201 Created (section 15.3.2 of RFC 9110). */
  const Created := 201
  /** 204 No Content (section 15.3.5 of RFC 9110). */
  const NoContent := 204
  /** 404 Not Found (section 15.5.5 of RFC 9110). */
  const NotFound := 404
}
