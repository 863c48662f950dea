# Local chat front end: workspace mirror, chat turns and the chat proxy

This project is a Dafny model of the logic in the Next.js front end of a
local-LLM chat application. The front end has three parts:

- **The workspace mirror** (`frontend/lib/hooks/useWorkspaces.ts`). This is
  the in-memory list of the signed-in user's workspace records. It mirrors
  the remote `workspaces` table. The list changes only after the store
  confirms a write:
  - a created row is mapped and put in front;
  - `updateLastUsed` rewrites `lastUsed` on the entries with the matching id;
  - `deleteWorkspace` filters that id out;
  - every failure leaves the list alone and sets `error`.
- **The chat turn** (`handleSubmit` in `frontend/src/app/chat/page.tsx`, and
  the same code in `frontend/src/app/page.tsx`).
  - Blank input is ignored.
  - Otherwise the trimmed user turn is appended, the input is cleared and
    `loading` is set.
  - Exactly one assistant turn is then appended, chosen by how the
    `/api/chat` call ends. After that `loading` is cleared.
  - The `/chat` page also has two guard redirects (`/login`, `/home`).
  - Both pages have a rule for when an explanation block is rendered.
- **The chat proxy** (`frontend/src/app/api/chat/route.ts`). It forwards the
  transcript to the inference server's `/v1/chat/completions` with a fixed
  model and token limit. It answers `{ content }` on success and
  `{ error, details }` with status 500 on any failure.

Modules:

| module | file | form |
|---|---|---|
| `Js` | `js.dfy` | the JavaScript semantics the code relies on: `??`, `\|\|` on strings, caught values, `String.prototype.trim` |
| `ChatWire` | `chat_wire.dfy` | the JSON shapes shared by the pages and the route |
| `Workspaces` | `workspaces.dfy` | the pure mirror transforms and their lemmas, plus the class `WorkspaceMirror` whose methods update `workspaces`, `error` and `isLoaded` |
| `ChatRoute` | `chat_route.dfy` | the stateless route, as functions |
| `Transcript` | `transcript.dfy` | the turn logic shared by both pages |
| `ChatPage` | `chat_page.dfy` | the `/chat` page: class `Page` with `messages`, `input`, `loading`, plus the guard redirects |
| `RootPage` | `root_page.dfy` | the `/` page: the same class, without guards |
| `EndToEnd` | `end_to_end.dfy` | the `/chat` page submitting through the route |

Remote calls are not executed. Each one is a parameter that gives its
outcome:
- a Supabase auth call is an `AuthReply`;
- a store call is a `StoreReply`;
- the page's `fetch` is a `FetchOutcome`;
- the route's upstream call is an `UpstreamReply`.

Each mirror method returns the store call it issued, so the model states
what is sent as well as what changes. Clock readings
(`new Date().toISOString()`) are string parameters. `updateLastUsed` reads
the clock once for the remote update, and once more for each mirror entry
whose id matches. The model takes one value for the remote update and one
for the mirror (see "## Left out").

The proxy and the pages do not agree on the body of a successful reply:
- the route returns only `content`;
- the pages read `answer` and `explanation`.

`EndToEnd.ProxiedReplyTurn` proves the consequence. Through this route,
every successful reply becomes an assistant turn with no content and no
explanation. Every failure becomes the fixed server-error text. The route
has no system prompt, no `temperature` or `stream` parameter and no
extraction of a JSON object from the completion text. The model follows
the code on this. `ChatRoute.WrappedJsonIsNotExtracted` shows that wrapped
JSON is passed through whole.

## Model

| member | source | states |
|---|---|---|
| Js.Coalesce | frontend/src/app/api/chat/route.ts:3 | `v ?? fallback` keeps any present value, the empty string included, and gives the fallback only for a missing one |
| Js.OrElse | frontend/lib/hooks/useWorkspaces.ts:97 | `s \|\| fallback` keeps a non-empty string and replaces the empty one; the result is non-empty whenever the fallback is |
| Js.CaughtText | frontend/lib/hooks/useWorkspaces.ts:114 | `err instanceof Error ? err.message : fallback` gives an `Error`'s message, and the fallback for any other thrown value |
| Js.CaughtMessage | frontend/src/app/api/chat/route.ts:42 | `err?.message` gives an `Error`'s message, or the `message` property of any other thrown value (absent for `null`, `undefined` or a string) |
| Js.TrimStart | frontend/src/app/chat/page.tsx:36 | the result is a suffix of the input that is empty or starts with a non-whitespace character |
| Js.TrimEnd | frontend/src/app/chat/page.tsx:36 | the result is a prefix of the input that is empty or ends with a non-whitespace character |
| Js.TrimStartDropsWhitespace | frontend/src/app/chat/page.tsx:36 | every character dropped from the front is ECMAScript whitespace |
| Js.TrimEndDropsWhitespace | frontend/src/app/chat/page.tsx:36 | every character dropped from the end is ECMAScript whitespace |
| Js.Trim | frontend/src/app/chat/page.tsx:36 | `trim()` is never longer than its input, and a non-empty result begins and ends with non-whitespace |
| Js.TrimBlankIff | frontend/src/app/chat/page.tsx:36 | `s.trim()` is empty exactly when every character of `s` is whitespace (both directions) |
| Js.TrimIsSlice | frontend/src/app/chat/page.tsx:40 | `trim()` is the contiguous slice of its input that starts where the leading whitespace ends; with the two lemmas above, everything around it is whitespace |
| Js.TrimOfTrimmed | frontend/src/app/chat/page.tsx:40 | a string that begins and ends with non-whitespace is its own trim |
| Js.TrimIdempotent | frontend/src/app/chat/page.tsx:40 | trimming twice is trimming once, so the stored user turn is already trimmed |
| ChatRoute.BaseUrl | frontend/src/app/api/chat/route.ts:3 | `LLAMA_BASE_URL` when set, even if empty; otherwise `http://localhost:8000` |
| ChatRoute.Endpoint | frontend/src/app/api/chat/route.ts:11 | the URL is the base URL followed by `/v1/chat/completions` |
| ChatRoute.RequestFor | frontend/src/app/api/chat/route.ts:16-20 | the upstream body has model `gpt-oss-20b`, `max_tokens` 512 and the page's messages unchanged |
| ChatRoute.FirstContent | frontend/src/app/api/chat/route.ts:34-35 | `choices?.[0]?.message?.content` is present exactly when every link of the chain is present, and is then the first choice's content |
| ChatRoute.Post | frontend/src/app/api/chat/route.ts:5-45 | an upstream request goes out exactly when the request JSON was read; status is 200 exactly on a readable OK upstream reply, and 500 otherwise; success is `{content}` only; a non-OK upstream gives `llama-server request failed` with the body text; anything thrown (reading the request, the upstream `fetch`, reading its JSON) gives `Internal server error` with `err?.message` |
| ChatRoute.ReplyContent | frontend/src/app/api/chat/route.ts:34-36 | the first choice's content whenever the optional chain reaches one, even an empty one; `No content returned from model.` only when it does not |
| ChatRoute.EmptyContentIsKept | frontend/src/app/api/chat/route.ts:34-36 | an empty completion is returned as `""` (`??`, not `\|\|`) |
| ChatRoute.WrappedJsonIsNotExtracted | frontend/src/app/api/chat/route.ts:32-38 | a completion wrapping a JSON object in prose is returned whole as `content` |
| ChatRoute.EmptyBaseUrlIsKept | frontend/src/app/api/chat/route.ts:3 | an empty `LLAMA_BASE_URL` is kept, so the endpoint is the bare path |
| Workspaces.FromLoadedRow | frontend/lib/hooks/useWorkspaces.ts:46-54 | each column is copied into its camelCase field: `model_id` to `modelId`, `model_name` to `modelName`, `created_at` to `createdAt`, `last_used` to `lastUsed`, `user_id` to `userId` |
| Workspaces.FromCreatedRow | frontend/lib/hooks/useWorkspaces.ts:101-108 | the created record copies `id`, `name`, `model_id`, `model_name`, `created_at` and `user_id` field for field and has no `lastUsed` |
| Workspaces.InsertFor | frontend/lib/hooks/useWorkspaces.ts:85-91 | the insert carries the user's id as `user_id`, the name and models as given, and the clock value as `created_at` |
| Workspaces.FromRows | frontend/lib/hooks/useWorkspaces.ts:45-54 | one record per loaded row, in the store's order, each mapped field by field |
| Workspaces.Touch | frontend/lib/hooks/useWorkspaces.ts:130-136 | same length and order; only `lastUsed` changes, only on entries whose id matches, where it becomes the clock value |
| Workspaces.Remove | frontend/lib/hooks/useWorkspaces.ts:155 | no entry with the deleted id survives, and the list does not grow |
| Workspaces.RemoveMembers | frontend/lib/hooks/useWorkspaces.ts:155 | an entry survives exactly when it was present and its id differs (both directions) |
| Workspaces.RemoveConcat | frontend/lib/hooks/useWorkspaces.ts:155 | delete distributes over concatenation, so the survivors keep their original order |
| Workspaces.RemoveAbsent | frontend/lib/hooks/useWorkspaces.ts:155 | deleting an id the mirror does not hold leaves it unchanged |
| Workspaces.RemoveIdempotent | frontend/lib/hooks/useWorkspaces.ts:155 | deleting twice is deleting once |
| Workspaces.RemoveUniquePresent | frontend/lib/hooks/useWorkspaces.ts:155 | with unique ids, deleting a held id removes exactly one entry |
| Workspaces.RemoveKeepsUnique | frontend/lib/hooks/useWorkspaces.ts:155 | deleting keeps ids unique |
| Workspaces.TouchKeepsIds | frontend/lib/hooks/useWorkspaces.ts:130-136 | touching leaves the id sequence unchanged, so it keeps ids unique |
| Workspaces.TouchTwice | frontend/lib/hooks/useWorkspaces.ts:130-136 | touching twice is touching once with the later clock value |
| Workspaces.TouchAbsent | frontend/lib/hooks/useWorkspaces.ts:130-136 | touching an id the mirror does not hold leaves it unchanged |
| Workspaces.RemoveAfterTouch | frontend/lib/hooks/useWorkspaces.ts:130-155 | deleting a touched workspace gives the same list as deleting it untouched |
| Workspaces.PrependKeepsUnique | frontend/lib/hooks/useWorkspaces.ts:110 | prepending a record with a new id keeps ids unique |
| Workspaces.CreatedAndLoadedAgree | frontend/lib/hooks/useWorkspaces.ts:101-108 | the create mapping is the load mapping without `lastUsed` |
| Workspaces.CreateEchoesRequest | frontend/lib/hooks/useWorkspaces.ts:83-108 | if the store returns the inserted columns, the record has the requested name, model id, model name, timestamp and owner |
| Workspaces.WorkspaceMirror.constructor | frontend/lib/hooks/useWorkspaces.ts:17-19 | empty mirror, not loaded, no error |
| Workspaces.WorkspaceMirror.Load | frontend/lib/hooks/useWorkspaces.ts:23-66 | `isLoaded` after every branch; without a user nothing is selected and nothing else changes; on success the mirror is the mapped rows (an absent list is empty); a store error sets its message or `Failed to load workspaces`; anything thrown sets its message or `Unknown error` |
| Workspaces.WorkspaceMirror.CreateWorkspace | frontend/lib/hooks/useWorkspaces.ts:68-117 | without a user: no insert, error `User not authenticated`, returns none; the insert carries the user id, name, models and clock value; success prepends the mapped row and returns it; every failure leaves the mirror unchanged and sets the store message, `Unknown error creating workspace` or the thrown message |
| Workspaces.WorkspaceMirror.UpdateLastUsed | frontend/lib/hooks/useWorkspaces.ts:119-142 | the remote update goes out for the id unconditionally; success makes the mirror `Touch` of the old one with the local clock value; failure leaves it unchanged and sets the store message, `Failed to update last used` or the thrown message |
| Workspaces.WorkspaceMirror.DeleteWorkspace | frontend/lib/hooks/useWorkspaces.ts:144-161 | the remote delete goes out for the id unconditionally; success makes the mirror `Remove` of the old one; failure leaves it unchanged and sets the store message, `Failed to delete workspace` or the thrown message |
| Workspaces.Mount | frontend/lib/hooks/useWorkspaces.ts:16-66 | after mount the load has finished; the mirror is empty unless a user's select succeeded, and then holds the mapped rows |
| Transcript.UserTurn | frontend/src/app/chat/page.tsx:38-41 | the user turn is `{role: user, content: input.trim()}`, has no explanation, and its content is trimmed and non-blank |
| Transcript.ReplyTurn | frontend/src/app/chat/page.tsx:54-85 | one assistant turn per outcome: the fixed localhost:8000 text for a non-OK status, the fixed unexpected-error text for anything thrown, `{answer, explanation}` of the body otherwise |
| Transcript.AwaitReply | frontend/src/app/chat/page.tsx:47-85 | the `try`/`catch` with its early return yields exactly `ReplyTurn` of the outcome |
| Transcript.ExplanationVisible | frontend/src/app/chat/page.tsx:155 | `m.explanation && m.explanation.trim() !== ""` holds exactly when the explanation is present and not all whitespace |
| Transcript.ExplanationVisibleIff | frontend/src/app/chat/page.tsx:155 | an explanation renders exactly when it is present and holds a non-whitespace character (both directions) |
| Transcript.ShownOnlyFromOkReply | frontend/src/app/chat/page.tsx:67-76 | an assistant turn shows an explanation only if it came from an OK body with a visible explanation |
| Transcript.AppendPairKeepsAlternating | frontend/src/app/chat/page.tsx:38-85 | appending a user turn and an assistant turn keeps the transcript a sequence of user/assistant pairs |
| Transcript.AlternatingTurns | frontend/src/app/chat/page.tsx:7-11 | such a transcript has no system turn, and each of its user turns is trimmed and non-blank |
| ChatPage.Redirects | frontend/src/app/chat/page.tsx:22-32 | `/login` exactly when auth has loaded without a user; `/home` exactly when `model` is missing or empty; no other path is pushed; if both fire, `/login` comes first |
| ChatPage.Page.constructor | frontend/src/app/chat/page.tsx:18-20 | empty transcript, empty input, not loading |
| ChatPage.Page.Type | frontend/src/app/chat/page.tsx:189 | typing sets `input` and changes nothing else |
| ChatPage.Page.ShowsExplanation | frontend/src/app/chat/page.tsx:155 | entry `i` shows its explanation block exactly when it is an assistant turn whose explanation has a non-whitespace character |
| ChatPage.Page.HandleSubmit | frontend/src/app/chat/page.tsx:34-89 | blank input changes nothing and sends nothing; otherwise the in-flight state holds the old transcript plus the trimmed user turn, with `input` empty and `loading` true; the final transcript adds exactly `ReplyTurn` of the outcome, being 2 longer with the old transcript as its prefix, with `loading` false; the pair shape is preserved |
| RootPage.Page.constructor | frontend/src/app/page.tsx:12-14 | empty transcript, empty input, not loading |
| RootPage.Page.Type | frontend/src/app/page.tsx:141 | typing sets `input` and changes nothing else |
| RootPage.Page.ShowsExplanation | frontend/src/app/page.tsx:107 | entry `i` shows its explanation block exactly when it is an assistant turn whose explanation has a non-whitespace character |
| RootPage.Page.HandleSubmit | frontend/src/app/page.tsx:16-71 | the same transition as the `/chat` page: blank input ignored, trimmed user turn plus exactly one reply turn, `loading` bracketed around the call, old transcript kept as a prefix |
| EndToEnd.ProxiedReplyTurn | frontend/src/app/chat/page.tsx:67-76 | through this route, a successful reply becomes an assistant turn with no content and no explanation, and every failure becomes the server-error text |
| EndToEnd.ProxiedReplyShowsNoExplanation | frontend/src/app/chat/page.tsx:155 | no reply that comes through this route shows an explanation block |
| EndToEnd.SubmitThroughProxy | frontend/src/app/chat/page.tsx:34-89 | the route receives the old transcript plus the trimmed user turn, and forwards it unchanged to the endpoint; the page then holds that transcript plus the content-less or server-error turn |
| EndToEnd.SentTranscriptHasNoSystemTurn | frontend/src/app/api/chat/route.ts:16-20 | a transcript the page sends upstream contains only user and assistant turns |

## Left out

- JSX rendering, styling and the `authLoading` loading screen are not modelled. Only the explanation-visibility condition is modelled, because that is where the rendering does logic.
- The `router.push` navigation side effects are left out. `ChatPage.Redirects` returns the paths that would be pushed, in effect order.
- Supabase and `fetch` calls are not executed. Their outcomes are parameters. Console logging is left out.
- The server-side ordering by `last_used` descending with nulls last is not modelled, because the store does it. The client never re-sorts, and `FromRows` keeps whatever order it is given.
- Timestamps are opaque strings. Nothing is assumed about their order, so "`lastUsed` only moves forward" is not stated.
- React's stale closures and concurrent setter calls are not modelled. Operations run one after another, each on the state the previous one left.
- JSON values of unexpected types are not modelled: a non-string `answer` or a non-array `choices`, for example. A body read that throws is modelled as one outcome.
- `res.text()` throwing on a non-OK upstream response is not modelled separately from other thrown values.
- The login, auth-callback and home pages and the auth helper are not part of this model. They wrap an external provider or are static markup.
- Workspaces.WorkspaceMirror.UpdateLastUsed, Workspaces.WorkspaceMirror.DeleteWorkspace: no user check is modelled, because the code performs none.
- Workspaces.Touch: every matching entry gets the same mirror clock value, where the code reads the clock once per matching entry. At most one entry matches as long as ids are unique, and ids are the store's keys.
- `error` is never reset to `null` on success, because the code never resets it. The model keeps the old value.
