/** The answer an outbound HTTP call (`requests.post/get/delete`, `fetch`)
    gets. The model never performs a call: each call site takes its reply as
    an oracle value. */
module Http {
  import opened Common
  import opened Json

  /** `TransportError`: the call raised (connection refused, timeout, ...).
      `Reply`: a status code, the raw body text and, when the body parses as
      JSON, the parsed value (`r.json()` raises when `body` is None). */
  datatype HttpReply =
    | TransportError
    | Reply(status: int, text: string, body: Option<Json>)

  /** The statuses for which `raise_for_status()` raises and `r.ok` is false. */
  predicate IsErrorStatus(status: int) {
    400 <= status < 600
  }

  /** The reply reached the server, was not an error status and parsed as JSON. */
  predicate SucceededWithJson(reply: HttpReply) {
    reply.Reply? && !IsErrorStatus(reply.status) && reply.body.Some?
  }
}
