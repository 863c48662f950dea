/** The transcript logic the two chat pages share: the turns `handleSubmit`
    appends, the reply turn chosen by the outcome of the `/api/chat` call, and
    when an assistant turn shows its explanation. */
module Transcript {
  import opened Js
  import opened ChatWire

  const ServerErrorText: string := "Error: failed to reach the local model server on localhost:8000."
  const UnexpectedErrorText: string := "Unexpected error while calling the API."

  /** How the page's `fetch("/api/chat")` ended: it threw, or a response came
      back with a status and a body. The body is `None` when `res.json()`, or
      reading a field of what it gave, throws. */
  datatype FetchOutcome = FetchThrew | Responded(status: int, body: Option<ProxyJson>)

  /** A page's state: `messages`, `input` and `loading`. */
  datatype PageState = PageState(messages: seq<Message>, input: string, loading: bool)

  /** `{ role: "user", content: input.trim() }` */
  function UserTurn(input: string): (m: Message)
    requires Trim(input) != ""
    ensures m.role == User && m.explanation.None?
    ensures m.content == Some(Trim(input)) && IsTrimmed(m.content.value)
  {
    Message(User, Some(Trim(input)), None)
  }

  /** The one assistant turn appended after the request, by outcome. */
  function ReplyTurn(outcome: FetchOutcome): (m: Message)
    ensures m.role == Assistant
    // a thrown fetch, a thrown body read and a non-OK status each get a fixed text
    ensures outcome.FetchThrew? ==> m == Message(Assistant, Some(UnexpectedErrorText), None)
    ensures outcome.Responded? && !HttpOk(outcome.status) ==>
      m == Message(Assistant, Some(ServerErrorText), None)
    ensures outcome.Responded? && HttpOk(outcome.status) && outcome.body.None? ==>
      m == Message(Assistant, Some(UnexpectedErrorText), None)
    // an OK body gives `{ content: data.answer, explanation: data.explanation }`
    ensures outcome.Responded? && HttpOk(outcome.status) && outcome.body.Some? ==>
      m == Message(Assistant, outcome.body.value.answer, outcome.body.value.explanation)
  {
    match outcome
    case FetchThrew => Message(Assistant, Some(UnexpectedErrorText), None)
    case Responded(status, body) =>
      if !HttpOk(status) then Message(Assistant, Some(ServerErrorText), None)
      else match body
        case None => Message(Assistant, Some(UnexpectedErrorText), None)
        case Some(data) => Message(Assistant, data.answer, data.explanation)
  }

  /** The `try`/`catch` of `handleSubmit`, from the `fetch` to the reply turn:
      an early `return` on a non-OK status, the `catch` for anything thrown. */
  method AwaitReply(outcome: FetchOutcome) returns (reply: Message)
    ensures reply == ReplyTurn(outcome)
  {
    match outcome {
      case FetchThrew =>
        reply := Message(Assistant, Some(UnexpectedErrorText), None);
      case Responded(status, body) =>
        if !HttpOk(status) {
          reply := Message(Assistant, Some(ServerErrorText), None);
          return;
        }
        match body {
          case None =>
            reply := Message(Assistant, Some(UnexpectedErrorText), None);
          case Some(data) =>
            reply := Message(Assistant, data.answer, data.explanation);
        }
    }
  }

  /** `m.explanation && m.explanation.trim() !== ""`: the explanation is
      present and not made of whitespace alone (the empty string included). */
  predicate ExplanationVisible(explanation: Option<string>)
    ensures ExplanationVisible(explanation) <==>
      explanation.Some? && !AllWhitespace(explanation.value)
  {
    if explanation.Some? then
      TrimBlankIff(explanation.value);
      explanation.value != "" && Trim(explanation.value) != ""
    else
      false
  }

  /** The explanation block renders exactly for an assistant turn whose
      explanation holds a character that is not whitespace. */
  predicate ExplanationShown(m: Message) {
    m.role == Assistant && ExplanationVisible(m.explanation)
  }

  /** A visible explanation is one that is present and not all whitespace. */
  lemma ExplanationVisibleIff(explanation: Option<string>)
    ensures ExplanationVisible(explanation) <==>
      explanation.Some? && exists k :: 0 <= k < |explanation.value| && !IsWhitespace(explanation.value[k])
  {
  }

  /** Only an OK reply whose body carries a non-blank `explanation` shows one;
      every error turn and every user turn shows none. */
  lemma ShownOnlyFromOkReply(outcome: FetchOutcome)
    ensures ExplanationShown(ReplyTurn(outcome)) ==>
      outcome.Responded? && HttpOk(outcome.status) && outcome.body.Some?
      && ExplanationVisible(outcome.body.value.explanation)
  {
  }

  /** A user turn as `handleSubmit` builds it: trimmed, non-blank, no explanation. */
  predicate IsUserTurn(m: Message) {
    m.role == User && m.explanation.None? && m.content.Some? && IsTrimmed(m.content.value)
  }

  /** The shape every transcript built only by `handleSubmit` has: a
      sequence of pairs, each a user turn followed by an assistant turn. */
  predicate Alternating(ms: seq<Message>)
    decreases |ms|
  {
    ms == [] || (|ms| >= 2 && IsUserTurn(ms[0]) && ms[1].role == Assistant && Alternating(ms[2..]))
  }

  /** Appending a user turn and an assistant turn keeps the transcript alternating. */
  lemma {:induction false} AppendPairKeepsAlternating(ms: seq<Message>, u: Message, a: Message)
    requires Alternating(ms) && IsUserTurn(u) && a.role == Assistant
    ensures Alternating(ms + [u, a])
  {
    if ms == [] {
      assert (ms + [u, a])[2..] == [];
    } else {
      assert (ms + [u, a])[2..] == ms[2..] + [u, a];
      AppendPairKeepsAlternating(ms[2..], u, a);
    }
  }

  /** In an alternating transcript there is no system turn and every user
      turn is trimmed and non-blank (so none shows an explanation). */
  lemma {:induction false} AlternatingTurns(ms: seq<Message>)
    requires Alternating(ms)
    ensures forall i :: 0 <= i < |ms| ==> ms[i].role != System
    ensures forall i :: 0 <= i < |ms| && ms[i].role == User ==> IsUserTurn(ms[i])
  {
    if ms != [] {
      var rest := ms[2..];
      AlternatingTurns(rest);
      forall i | 0 <= i < |ms|
        ensures ms[i].role != System && (ms[i].role == User ==> IsUserTurn(ms[i]))
      {
        if i >= 2 {
          assert ms[i] == rest[i - 2];
        }
      }
    }
  }
}
