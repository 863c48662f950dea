/** The root page `/`: the same chat transcript as the `/chat` page, with no
    sign-in or model guard. */
module RootPage {
  import opened Js
  import opened ChatWire
  import opened Transcript

  /** The page component's state: `messages`, `input` and `loading`. */
  class Page {
    var messages: seq<Message>
    var input: string
    var loading: bool

    /** The transcript only ever grows by a user turn and its reply. */
    ghost predicate Valid()
      reads this
    {
      Alternating(messages)
    }

    constructor ()
      ensures Valid() && messages == [] && input == "" && !loading
    {
      messages, input, loading := [], "", false;
    }

    /** The input's `onChange`: `setInput(e.target.value)`. */
    method Type(value: string)
      requires Valid()
      modifies this
      ensures Valid()
      ensures input == value && messages == old(messages) && loading == old(loading)
    {
      input := value;
    }

    /** Whether the transcript entry at `i` renders its "Why this answer"
        block: an assistant turn whose explanation holds some character that
        is not whitespace. */
    function ShowsExplanation(i: nat): (r: bool)
      reads this
      requires i < |messages|
      ensures r <==>
        messages[i].role == Assistant && messages[i].explanation.Some?
        && exists k :: 0 <= k < |messages[i].explanation.value| && !IsWhitespace(messages[i].explanation.value[k])
    {
      ExplanationVisibleIff(messages[i].explanation);
      ExplanationShown(messages[i])
    }

    /** `handleSubmit`. `outcome` is how the `/api/chat` call ends; the
        returned state is the one the page shows while that call is in flight,
        and its `messages` is the request body. */
    method HandleSubmit(outcome: FetchOutcome) returns (inFlight: Option<PageState>)
      requires Valid()
      modifies this
      ensures Valid()
      // blank input: nothing changes and nothing is sent
      ensures Trim(old(input)) == "" ==>
        inFlight.None? && messages == old(messages) && input == old(input) && loading == old(loading)
      // otherwise the trimmed user turn goes out with `loading` set and the input cleared ...
      ensures Trim(old(input)) != "" ==>
        inFlight == Some(PageState(old(messages) + [UserTurn(old(input))], "", true))
      // ... and exactly one assistant turn follows it, with `loading` cleared again
      ensures Trim(old(input)) != "" ==>
        messages == old(messages) + [UserTurn(old(input)), ReplyTurn(outcome)]
        && input == "" && !loading
      ensures Trim(old(input)) != "" ==>
        |messages| == |old(messages)| + 2 && messages[..|old(messages)|] == old(messages)
    {
      if Trim(input) == "" {
        inFlight := None;
      } else {
        var newMessages := messages + [UserTurn(input)];
        messages := newMessages;
        input := "";
        loading := true;
        inFlight := Some(PageState(messages, input, loading));

        var reply := AwaitReply(outcome);
        AppendPairKeepsAlternating(old(messages), UserTurn(old(input)), reply);
        assert newMessages + [reply] == old(messages) + [UserTurn(old(input)), reply];
        messages := newMessages + [reply];
        assert messages[..|old(messages)|] == old(messages);
        loading := false;
      }
    }
  }
}
