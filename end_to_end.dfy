/** The `/chat` page and the `/api/chat` route put together: the page reads
    `answer` and `explanation` from a body in which the route only ever sets
    `content`, so no model text reaches the transcript. */
module EndToEnd {
  import opened Js
  import opened ChatWire
  import opened Transcript
  import ChatRoute
  import ChatPage

  /** The outcome the page's `fetch` sees when the route answers it: the
      route's status and a readable JSON body. */
  function Relay(h: ChatRoute.Handled): (o: FetchOutcome)
    ensures o.Responded? && o.status == h.response.status && o.body == Some(h.response.body)
  {
    Responded(h.response.status, Some(h.response.body))
  }

  /** Whatever the upstream server does, the assistant turn the page builds
      from the route's response has no explanation, and it has no content
      unless it is the fixed server-error text. */
  lemma ProxiedReplyTurn(env: Option<string>, messages: seq<Message>, upstream: ChatRoute.UpstreamReply)
    ensures var m := ReplyTurn(Relay(ChatRoute.Post(env, ChatRoute.RequestJson(messages), upstream)));
      (upstream.OkJson? ==> m == Message(Assistant, None, None))
      && (!upstream.OkJson? ==> m == Message(Assistant, Some(ServerErrorText), None))
  {
    var h := ChatRoute.Post(env, ChatRoute.RequestJson(messages), upstream);
    if upstream.OkJson? {
      assert h.response.status == 200 && h.response.body.answer.None?;
    } else {
      assert h.response.status == 500 && !HttpOk(h.response.status);
    }
  }

  /** So the "Why this answer" block never renders for a proxied reply. */
  lemma ProxiedReplyShowsNoExplanation(env: Option<string>, messages: seq<Message>, upstream: ChatRoute.UpstreamReply)
    ensures !ExplanationShown(ReplyTurn(Relay(ChatRoute.Post(env, ChatRoute.RequestJson(messages), upstream))))
  {
    ProxiedReplyTurn(env, messages, upstream);
  }

  /** One submission of the `/chat` page answered by the route: the route
      receives the transcript with the new user turn, forwards it unchanged,
      and the page then holds that transcript and one content-less (or
      server-error) assistant turn. */
  method SubmitThroughProxy(page: ChatPage.Page, env: Option<string>, upstream: ChatRoute.UpstreamReply)
    returns (h: Option<ChatRoute.Handled>)
    requires page.Valid()
    modifies page
    ensures page.Valid()
    ensures Trim(old(page.input)) == "" ==>
      h.None? && page.messages == old(page.messages) && page.input == old(page.input)
    ensures Trim(old(page.input)) != "" ==>
      h.Some? && h.value.sent == Some(ChatRoute.RequestFor(env, old(page.messages) + [UserTurn(old(page.input))]))
    ensures Trim(old(page.input)) != "" && upstream.OkJson? ==>
      page.messages == old(page.messages) + [UserTurn(old(page.input)), Message(Assistant, None, None)]
    ensures Trim(old(page.input)) != "" && !upstream.OkJson? ==>
      page.messages == old(page.messages) + [UserTurn(old(page.input)), Message(Assistant, Some(ServerErrorText), None)]
  {
    if Trim(page.input) == "" {
      var _ := page.HandleSubmit(FetchThrew);
      h := None;
    } else {
      var body := page.messages + [UserTurn(page.input)];
      var handled := ChatRoute.Post(env, ChatRoute.RequestJson(body), upstream);
      ProxiedReplyTurn(env, body, upstream);
      var _ := page.HandleSubmit(Relay(handled));
      h := Some(handled);
    }
  }

  /** Every transcript the page sends upstream is made of user and assistant
      turns only: the page's own transcript, which alternates, plus the new
      user turn. */
  lemma SentTranscriptHasNoSystemTurn(ms: seq<Message>, input: string, env: Option<string>, upstream: ChatRoute.UpstreamReply)
    requires Alternating(ms) && Trim(input) != ""
    ensures var sent := ChatRoute.Post(env, ChatRoute.RequestJson(ms + [UserTurn(input)]), upstream).sent;
      sent.Some? && forall i :: 0 <= i < |sent.value.messages| ==> sent.value.messages[i].role != System
  {
    var body := ms + [UserTurn(input)];
    var h := ChatRoute.Post(env, ChatRoute.RequestJson(body), upstream);
    assert h.sent.value.messages == body;
    AlternatingTurns(ms);
    forall i | 0 <= i < |body|
      ensures body[i].role != System
    {
      if i < |ms| {
        assert body[i] == ms[i];
      }
    }
  }
}
