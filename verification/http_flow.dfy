/** The parts of a captured mitmproxy HTTP flow the add-ons read. */
module HttpFlow {
  import opened ElementTree

  /** Request headers, keyed by lower-case header name. */
  datatype Request = Request(headers: map<string, string>)

  /** The response's status code and its raw content. */
  datatype Response = Response(statusCode: int, content: Body)

  /** One request/response exchange; the add-ons never change it. */
  datatype Flow = Flow(request: Request, response: Response)
}
