/** The JSON shapes that travel between the chat pages, the `/api/chat` proxy
    route and the inference server. */
module ChatWire {
  import opened Js

  /** `"user" | "assistant" | "system"`; the pages only ever produce the first two. */
  datatype Role = User | Assistant | System

  /** One conversation turn, as the pages hold it and as it is serialised
      into the `messages` array. `content` is optional because a turn built
      from a proxy reply copies `data.answer`, which may be absent;
      `explanation` is set only on assistant turns built from a reply. */
  datatype Message = Message(role: Role, content: Option<string>, explanation: Option<string>)

  /** The body of a proxy response, with every field that a page or the route
      touches; absent fields are `None`. */
  datatype ProxyJson = ProxyJson(
    content: Option<string>,
    answer: Option<string>,
    explanation: Option<string>,
    error: Option<string>,
    details: Option<string>)

  /** A proxy response: its HTTP status and its JSON body. */
  datatype ProxyReply = ProxyReply(status: int, body: ProxyJson)

  /** `{ content }` */
  function ContentOnly(content: string): ProxyJson {
    ProxyJson(Some(content), None, None, None, None)
  }

  /** `{ error, details }` */
  function ErrorBody(error: string, details: Option<string>): ProxyJson {
    ProxyJson(None, None, None, Some(error), details)
  }

  /** `res.ok`: the status is in the 2xx range. */
  predicate HttpOk(status: int) {
    200 <= status <= 299
  }
}
