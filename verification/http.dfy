/** What the logger reads of a request and a response. */
module Http {
  import opened Values

  /** An exception, by name. */
  datatype Error = Error(name: string)

  /** `request.user`, reduced to what the logger reads of it. */
  datatype User = User(isAnonymous: bool, username: string)

  /** What the first access to `request.data` yields: a parsed body offering
      `.dict()` (its result given), one without it, or a parse exception
      (`ParseError`, `UnsupportedMediaType`). */
  datatype ParsedData =
    | WithDict(asDict: Val)
    | WithoutDict(value: Val)
    | ParseFailure(error: Error)

  /** `request`: the method, the path, `META`, the raw body, `get_host()`,
      `query_params.dict()`, `user`, and what parsing the body gives. */
  datatype Request = Request(
    verb: string,
    path: string,
    meta: map<string, string>,
    body: seq<byte>,
    host: string,
    queryParams: seq<Entry>,
    user: User,
    data: ParsedData)

  /** The body a response offers: a streaming one is never read, otherwise
      `rendered_content` when the response has it, else `getvalue()`. */
  datatype Content =
    | Streaming
    | Rendered(content: Val)
    | Buffered(value: Val)

  datatype Response = Response(statusCode: int, content: Content)
}
