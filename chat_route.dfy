/** The `/api/chat` proxy route: it forwards the page's messages to the
    inference server's chat-completions endpoint and maps the upstream outcome
    to its own response. It holds no state. */
module ChatRoute {
  import opened Js
  import opened ChatWire

  const DefaultBaseUrl: string := "http://localhost:8000"
  const CompletionsPath: string := "/v1/chat/completions"
  const UpstreamModel: string := "gpt-oss-20b"
  const MaxTokens: int := 512
  const NoContentText: string := "No content returned from model."
  const UpstreamFailedText: string := "llama-server request failed"
  const InternalErrorText: string := "Internal server error"

  /** `process.env.LLAMA_BASE_URL ?? "http://localhost:8000"`. */
  function BaseUrl(env: Option<string>): (r: string)
    ensures env.None? ==> r == DefaultBaseUrl
    ensures env.Some? ==> r == env.value
  {
    Coalesce(env, DefaultBaseUrl)
  }

  /** `${BASE_URL}/v1/chat/completions`. */
  function Endpoint(env: Option<string>): (r: string)
    ensures |r| == |BaseUrl(env)| + |CompletionsPath|
    ensures r[..|BaseUrl(env)|] == BaseUrl(env)
    ensures r[|BaseUrl(env)|..] == CompletionsPath
  {
    BaseUrl(env) + CompletionsPath
  }

  /** The POST the route sends upstream: its URL and the JSON body
      `{ model, messages, max_tokens }`. */
  datatype UpstreamRequest = UpstreamRequest(url: string, model: string, messages: seq<Message>, maxTokens: int)

  /** What `await req.json()` gave: the page's `messages`, or an exception. */
  datatype Incoming = RequestJson(messages: seq<Message>) | RequestThrew(thrown: Thrown)

  /** The parts of the upstream completion JSON the route reads:
      `choices?.[0]?.message?.content`. */
  datatype Completion = Completion(choices: Option<seq<Choice>>)
  datatype Choice = Choice(message: Option<ChoiceMessage>)
  datatype ChoiceMessage = ChoiceMessage(content: Option<string>)

  /** How the upstream call ended: `fetch` threw; the response was not OK
      (with its body text); it was OK and its JSON was read; or it was OK and
      reading its JSON, or a field of it, threw. */
  datatype UpstreamReply =
    | Unreachable(thrown: Thrown)
    | NotOk(status: int, text: string)
    | OkJson(data: Completion)
    | OkUnreadable(thrown: Thrown)

  /** What the route did: the upstream request it issued, if any, and its response. */
  datatype Handled = Handled(sent: Option<UpstreamRequest>, response: ProxyReply)

  /** The request body built from the page's messages. */
  function RequestFor(env: Option<string>, messages: seq<Message>): (r: UpstreamRequest)
    ensures r.url == Endpoint(env)
    ensures r.model == "gpt-oss-20b" && r.maxTokens == 512
    ensures r.messages == messages
  {
    UpstreamRequest(Endpoint(env), UpstreamModel, messages, MaxTokens)
  }

  /** `data.choices?.[0]?.message?.content`: present only when every link of
      the optional chain is present; then it is the first choice's content. */
  function FirstContent(data: Completion): (r: Option<string>)
    ensures r.Some? <==>
      data.choices.Some? && |data.choices.value| > 0
      && data.choices.value[0].message.Some?
      && data.choices.value[0].message.value.content.Some?
    ensures r.Some? ==> r.value == data.choices.value[0].message.value.content.value
  {
    match data.choices
    case None => None
    case Some(cs) =>
      if cs == [] then None
      else match cs[0].message
        case None => None
        case Some(m) => m.content
  }

  /** The `content` the route returns for an OK upstream reply: the first
      choice's content whenever the chain reaches one, even the empty string,
      and the placeholder only when it does not. */
  function ReplyContent(data: Completion): (r: string)
    ensures FirstContent(data).Some? ==> r == data.choices.value[0].message.value.content.value
    ensures FirstContent(data).None? ==> r == NoContentText
  {
    Coalesce(FirstContent(data), NoContentText)
  }

  /** POST /api/chat. */
  function Post(env: Option<string>, request: Incoming, upstream: UpstreamReply): (h: Handled)
    // the page's messages are forwarded unchanged, in order, to the fixed endpoint
    ensures h.sent.Some? <==> request.RequestJson?
    ensures h.sent.Some? ==> h.sent.value == RequestFor(env, request.messages)
    // status 200 exactly when the upstream answered OK with readable JSON
    ensures h.response.status in {200, 500}
    ensures h.response.status == 200 <==> request.RequestJson? && upstream.OkJson?
    // success is `{ content }` and nothing else: never `answer` nor `explanation`
    ensures h.response.status == 200 ==> h.response.body == ContentOnly(ReplyContent(upstream.data))
    ensures h.response.body.answer.None? && h.response.body.explanation.None?
    // every failure is `{ error, details }`
    ensures h.response.status == 500 ==> h.response.body.content.None? && h.response.body.error.Some?
    ensures request.RequestJson? && upstream.NotOk? ==>
      h.response.body == ErrorBody(UpstreamFailedText, Some(upstream.text))
    ensures request.RequestThrew? ==>
      h.response.body == ErrorBody(InternalErrorText, CaughtMessage(request.thrown))
    ensures request.RequestJson? && (upstream.Unreachable? || upstream.OkUnreadable?) ==>
      h.response.body == ErrorBody(InternalErrorText, CaughtMessage(upstream.thrown))
  {
    match request
    case RequestThrew(err) =>
      Handled(None, ProxyReply(500, ErrorBody(InternalErrorText, CaughtMessage(err))))
    case RequestJson(messages) =>
      var sent := Some(RequestFor(env, messages));
      match upstream
      case Unreachable(err) =>
        Handled(sent, ProxyReply(500, ErrorBody(InternalErrorText, CaughtMessage(err))))
      case NotOk(_, text) =>
        Handled(sent, ProxyReply(500, ErrorBody(UpstreamFailedText, Some(text))))
      case OkUnreadable(err) =>
        Handled(sent, ProxyReply(500, ErrorBody(InternalErrorText, CaughtMessage(err))))
      case OkJson(data) =>
        Handled(sent, ProxyReply(200, ContentOnly(ReplyContent(data))))
  }

  /** An empty completion is returned as the empty string, not as the
      placeholder (`??` differs from `||` here). */
  lemma EmptyContentIsKept()
    ensures ReplyContent(Completion(Some([Choice(Some(ChoiceMessage(Some(""))))]))) == ""
  {
  }

  /** A completion that wraps a JSON object in prose is returned whole: the
      route does not extract an answer or an explanation from it. */
  lemma WrappedJsonIsNotExtracted(env: Option<string>, messages: seq<Message>)
    ensures var raw := "preamble {\"answer\":\"Hi!\",\"explanation\":\"- greeted\"}";
      Post(env, RequestJson(messages), OkJson(Completion(Some([Choice(Some(ChoiceMessage(Some(raw))))])))).response
      == ProxyReply(200, ContentOnly(raw))
  {
  }

  /** A set but empty `LLAMA_BASE_URL` is kept (`??` does not replace it), so
      the route then posts to the bare path. */
  lemma EmptyBaseUrlIsKept()
    ensures Endpoint(Some("")) == CompletionsPath
  {
  }
}
