# AISP relay and record logic, modelled in Dafny

AISP is a training platform for medical history taking. A trainee chats with an assistant hosted by a
third-party conversational-AI service (the ChatGLM assistant API), and the conversation is then scored.
This project models the logic of that platform that sits between the browser, the assistant service
and the platform's own record store, and proves properties of the model:

- **The streaming relay**, as the chat route (`POST /api/qingyan/stream`) and the score route
  (`GET /api/scores/generate-stream`) implement it:
  - the module-level access-token cache;
  - the frame buffer that cuts the upstream text at its last blank line;
  - the `data:` line parser, a simplified subset of server-sent events (HTML Living Standard,
    section 9.2, "Server-sent events");
  - the delta reconciler over the longest common prefix;
  - the synchronisation of the upstream `conversation_id` and `history_id`;
  - the terminal state machine that ends the stream on an error, on `finish` or at the end of the
    reply, and writes exactly one `[DONE]`.
- **The browser side of the relay** (`streamAgentReply`): the same framing, and the dispatch of
  events to `onDelta`, `onDone` and `onError`.
- **The report reader**: the extraction of the first pipe table from the assistant's Markdown, a
  stricter subset of tables in GitHub Flavored Markdown (section 4.10, "Tables"), and the score
  summary built from it.
- **The prompt-suggestion route**: its own token-cache variant, escape decoding and display
  escaping, and the filtering of the suggested prompts.
- **The record routes**:
  - conversations: listing, creation with a unique title, and cascading deletion;
  - the agent-session index: merge, synthesis, sort and upsert;
  - the keyword-coverage score;
  - the canned-reply chat.
- **The two sets of input validators**: the web client's `paramCheck.js` and the backend's
  `ParamCheck.java`, including where the two disagree.
- **The backend's e-mail verification service**: the resend limit, code generation and hashing,
  one-time consumption of a code, and the `email_verified` flag it sets, together with the
  registration handler that calls it.
- **The development-login resolver** (`devAuth.js`).

The model has one Dafny module per file. Each module follows the source's own form:
- pure helpers are functions;
- loops are methods with invariants, proved equal to a specification function;
- the record store, the token caches, the relay loop and the verification service's database are
  classes whose methods update their fields.

Each route is first a function from the store and the request to the new store and the response.
The route's handler is then a method over the `Store` object, proved to agree with that function.
The properties are lemmas about those functions.

Inputs stand in for everything the code reads from outside:
- the clock;
- random identifiers and the random code;
- the cookie and the environment flags;
- the replies of the assistant service, with the body of a streamed reply as a sequence of text
  chunks;
- whether the mail server accepts a message;
- the results of `JSON.parse`.

Where the system's specification and its code disagree, the model follows the code:
- The total row of a score table is marked by `总计` (frontend/src/lib/markdownTable.js:100), not by
  `总分`. `ScoreSummary.TotalMarker` shows that an item named `总分` is an ordinary item.
- A score record's mode is `agent-md` or `keyword-mock`, not `agent-table` or `fallback`.
- The record keeps the report under `reportMd` and `report`, and its total under `score`.
- The prompt-suggestion route's token cache has its own rules:
  - it reuses a token while `expiresAt - now > 60000`;
  - it reads only `result.access_token`;
  - it adds `expires_in` without multiplying it by 1000.
- The deltas sent to the client concatenate to the saved text only when every snapshot extends the
  text so far or starts with a different character. A shorter snapshot that shares a first
  character sends nothing but still replaces the text (`Reconcile.ShrinkingSnapshotExample`).

In the table below the source paths are relative to the repository root.

## Model

| member | source | states |
|---|---|---|
| Json.StrictEqualsEqual | frontend/app/api/qingyan/stream/route.js:61 | `===` between two decoded values holds only when they are the same primitive; no array or object is ever `===` to another decoded value. |
| Json.Or | frontend/app/api/qingyan/stream/route.js:98 | `a \|\| b` is truthy exactly when `a` or `b` is. |
| Json.NumberOr | frontend/app/api/qingyan/stream/route.js:64 | `Number(x) \|\| d` is `d`, or a non-zero number that `x` converts to; it is that number whenever the number is non-zero. |
| Json.NumberOfIntToString | frontend/app/api/agent-sessions/route.js:58 | `Number(String(n))` is `n` for every integer: the decimal text of an integer, with or without its minus sign, reads back as that integer. |
| Json.NegatedNumber | frontend/app/api/agent-sessions/route.js:58 | A minus sign before a decimal literal converts to the negated value. |
| Json.ArrayNumbers | frontend/app/api/agent-sessions/route.js:58 | An array converts through the string its elements join to: `Number([])` and `Number([null])` are 0, and `Number([n])` and `Number(["n"])` are `n`. |
| Json.ObjectNumber | frontend/app/api/agent-sessions/route.js:58 | An object converts to `NaN`: its string is `[object Object]`. |
| Json.NonNumericStart | frontend/app/api/agent-sessions/route.js:58 | Text that starts with anything but a digit, a point or a sign converts to `NaN`. |
| Json.InfinityNumber | frontend/app/api/qingyan/stream/route.js:107 | `Infinity` converts to `NaN` in the model, whose numbers are integers. |
| Json.HexNumber | frontend/app/api/qingyan/stream/route.js:107 | `0x10` converts to 16: a radix prefix selects hexadecimal digits. |
| Json.SignedHexNumber | frontend/app/api/qingyan/stream/route.js:107 | `-0x10` converts to `NaN`: a radix literal takes no sign. |
| Json.ExponentNumber | frontend/app/api/qingyan/stream/route.js:107 | `1e3` converts to 1000: an exponent scales the digits. |
| Json.FractionNumber | frontend/app/api/qingyan/stream/route.js:107 | `12.0` converts to 12: a fraction of zeros cancels. |
| Json.SpacedNumber | frontend/app/api/qingyan/stream/route.js:107 | ` 12.0 ` converts to 12: the text is trimmed first. |
| Json.NonIntegerNumber | frontend/app/api/qingyan/stream/route.js:107 | `1.5` converts to `NaN` in the model, whose numbers are integers. |
| DevAuth.Sid | frontend/src/lib/devAuth.js:19 | A cookie session id counts only when present and non-empty; it is then returned unchanged. |
| DevAuth.BypassRule | frontend/src/lib/devAuth.js:1-10 | Bypass is never on when `NODE_ENV` is `production`; otherwise it is on exactly when `DEBUG_LOCAL` or `DEV_AUTH_BYPASS` is `'1'`. |
| DevAuth.ResolveSid | frontend/src/lib/devAuth.js:17-22 | `bypass` is the bypass flag; a cookie sid is returned unchanged; without one the sid is `'dev'` when bypass is on and `null` otherwise; a returned sid is never empty. |
| DevAuth.NoBypassIsCookie | frontend/src/lib/devAuth.js:17-22 | Outside bypass mode `resolveSid` is plain cookie authentication with `bypass: false`. |
| Records.OwnedIndex | frontend/app/api/qingyan/stream/route.js:246 | The conversation found is one whose `id` is `===` the requested id and whose `userId` is the caller; -1 means none. |
| Records.OwnedIndexFirst | frontend/app/api/qingyan/stream/route.js:246 | The index found is the first owned conversation, and -1 means that no conversation is owned. |
| Records.SetText | frontend/app/api/qingyan/stream/route.js:386-387 | Setting the assistant message's text keeps the number of messages. |
| Records.SetTextOfLast | frontend/app/api/qingyan/stream/route.js:431-432 | When the assistant message is the last message and its id is unique, only that message's text changes. |
| Records.SessionIndex | frontend/app/api/qingyan/stream/route.js:61 | The index found is an entry whose `conversationId` is `===` the id, or -1. |
| Records.UpsertShape | frontend/app/api/qingyan/stream/route.js:69-70 | The upsert either overwrites the first matching entry with `{ ...old, ...next }` or appends `next`; the list grows by at most one and every other entry is kept. |
| Records.UpsertCount | frontend/app/api/qingyan/stream/route.js:61-70 | When the written fields carry the id, the number of entries with that id becomes 1 if it was 0 and is otherwise unchanged: the upsert never adds a duplicate. |
| Records.UpsertIdempotent | frontend/app/api/qingyan/stream/route.js:61-70 | Repeating the same upsert changes nothing further. |
| Records.Touch | frontend/app/api/qingyan/stream/route.js:62-68 | The entry `touchAgentSession` writes carries the conversation id (so a later upsert finds it), `createdAt` is `Number(createdAt) \|\| now` and `updatedAt` is now. |
| Records.Store.PushScore | frontend/app/api/scores/generate-stream/route.js:132-134 | `getScores`, `push`, `saveScores`: the record is appended after the earlier ones; conversations and sessions are unchanged. |
| Records.Store.TouchAgentSession | frontend/app/api/qingyan/stream/route.js:58-72 | The session list becomes the upsert of the touched entry; conversations and scores are unchanged. |
| TokenCache.ErrorMessage | frontend/app/api/qingyan/stream/route.js:98 | `new Error(v \|\| fallback).message` is the fallback when `v` is falsy. |
| TokenCache.RelayTokenStep | frontend/app/api/qingyan/stream/route.js:74-108 | The cached token is reused exactly when one is cached and `now < expiresAt - 60000`, and then the cache is unchanged. A failure leaves the cache unchanged, and a non-OK reply always fails. A fetched token is truthy and is stored with `expiresAt = now + (Number(expires_in) \|\| 0) * 1000`, and `result.access_token` wins over the top-level field. |
| TokenCache.NoExpiryNeverReused | frontend/app/api/qingyan/stream/route.js:107 | A token fetched with a missing, zero or non-numeric `expires_in` is never reused. |
| TokenCache.FetchedReusedUntil | frontend/app/api/qingyan/stream/route.js:76-107 | A fetched token is reused exactly while `later < now + (Number(expires_in) \|\| 0) * 1000 - 60000`. |
| TokenCache.ReuseRulesAgree | frontend/app/api/qingyan/suggest-prompts/route.js:51 | The prompt-suggestion reuse test `expiresAt - now > 60000` is the same rule as the relays' `now < expiresAt - 60000`. |
| TokenCache.SuggestTokenStep | frontend/app/api/qingyan/suggest-prompts/route.js:49-70 | Reuse exactly under the reuse rule, with the cache unchanged. A failure leaves the cache unchanged; it happens whenever `result.access_token` is falsy. A fetched token is `result.access_token` (no top-level fallback), and `expiresAt = now + expires_in` with no `* 1000`, never below now. |
| TokenCache.SuggestSecondsNeverReused | frontend/app/api/qingyan/suggest-prompts/route.js:65-67 | Because `expires_in` is added as milliseconds, a lifetime of at most 60000 (any lifetime in seconds below 16 hours) is never reused. |
| TokenCache.TokenCache.constructor | frontend/app/api/qingyan/stream/route.js:42-43 | The cache starts as `null` token and expiry 0. |
| TokenCache.TokenCache.GetAccessToken | frontend/app/api/qingyan/stream/route.js:74-108 | The method updates the two module variables exactly as the relay's step function says and returns its outcome. |
| TokenCache.TokenCache.GetSuggestToken | frontend/app/api/qingyan/suggest-prompts/route.js:49-70 | The method updates the two module variables exactly as the prompt route's step function says and returns its outcome. |
| Framing.LineFnSilentOnBlank | frontend/app/api/qingyan/stream/route.js:171-173 | A line that is not a `data:` line, in particular the empty line, yields no event. |
| Framing.SplitBlocks | frontend/app/api/qingyan/stream/route.js:167 | `split('\n\n')` gives at least one block. |
| Framing.JoinSplitBlocks | frontend/app/api/qingyan/stream/route.js:167 | Gluing the blocks of `split('\n\n')` back with `\n\n` gives the text: splitting loses nothing. |
| Framing.BlocksEventsAreEvents | frontend/app/api/qingyan/stream/route.js:167-170 | Splitting on blank lines first and then on line feeds yields the same events as reading the text line by line. |
| Framing.ParseDataLines | frontend/app/api/qingyan/stream/route.js:165-186 | `parseUpstreamSseEvents` returns, in order, the events of the text's lines: one per `data:` line with a non-blank trimmed payload, `[DONE]` as `{type:'done'}`, JSON payloads parsed, and other payloads dropped. |
| Framing.ParseBlock | frontend/app/api/qingyan/stream/route.js:169-183 | The inner loop over one block's lines returns that block's events in line order. |
| Framing.Frame | frontend/app/api/qingyan/stream/route.js:341-345 | One cut: without `\n\n` the buffer is kept whole; otherwise `buffer == ready + "\n\n" + kept`. The kept part never contains `\n\n`. |
| Framing.BufferedHasNoBlankLine | frontend/app/api/qingyan/stream/route.js:341-345 | After any sequence of reads the retained buffer contains no `\n\n`. |
| Framing.FrameKeepsText | frontend/app/api/qingyan/stream/route.js:344-345 | A cut loses no text: ready part, separator and kept part make up the buffer. |
| Framing.ConsumedAndBuffered | frontend/app/api/qingyan/stream/route.js:336-345 | After any reads, the consumed ready parts (each with its `\n\n`) followed by the buffer are exactly the concatenated chunks. |
| Framing.FedEventsConsumed | frontend/app/api/qingyan/stream/route.js:336-355 | The events parsed so far are exactly the events of the consumed text. |
| Framing.FedIsFramed | frontend/app/api/qingyan/stream/route.js:336-355 | Chunk independence: after any sequence of reads, the events parsed are those of the text before its last `\n\n`, whatever the chunking. |
| Framing.ChunkingIrrelevant | frontend/app/api/qingyan/stream/route.js:336-355 | Two chunkings of the same byte text parse to the same events. |
| Framing.FramedPrefix | frontend/app/api/qingyan/stream/route.js:336-355 | Reading more text only appends events. |
| Framing.UnterminatedFrameIgnored | frontend/app/api/qingyan/stream/route.js:336-451 | Text after the last `\n\n` that holds no `\n\n` of its own adds no event, whatever it holds. |
| Framing.FedStep | frontend/app/api/qingyan/stream/route.js:340-355 | One read: the new buffer is the kept part of `buffer + chunk`, and the events of its ready part are appended. |
| Framing.FedPrefix | frontend/app/api/qingyan/stream/route.js:336-355 | The events parsed after the first reads are a prefix of those parsed after all reads. |
| Downstream.ToJson | frontend/app/api/qingyan/stream/route.js:45-48 | Every non-sentinel event is written as an object with a string `type`. |
| Downstream.Sse | frontend/app/api/qingyan/stream/route.js:45-48 | A frame starts with `data: ` and ends with `\n\n`; `'[DONE]'` is exactly `data: [DONE]\n\n`. |
| Downstream.FramePayload | frontend/app/api/qingyan/stream/route.js:47-172 | The payload a `data: ` line yields back is the stringified object. |
| Downstream.FrameLineEvents | frontend/app/api/qingyan/stream/route.js:47-179 | The browser's reading of one frame's line gives back exactly the event written, and `{type:'done'}` for `[DONE]`. |
| Downstream.WireClosed | frontend/app/api/qingyan/stream/route.js:45-48 | What the relay writes is empty or ends with a blank line, so no event is left in a reader's buffer. |
| Downstream.WireEvents | frontend/src/agent/streamAgent.js:1-22 | Reading what a relay wrote line by line with the browser's `parseSse` gives back the written events in order, `[DONE]` as `{type:'done'}`, provided `JSON.parse` inverts `JSON.stringify` on them. |
| Downstream.WireRoundTrip | frontend/src/agent/streamAgent.js:58-67 | However the network cuts the relay's output into chunks, the browser's buffer-and-parse loop yields exactly the events the relay wrote. |
| Reconcile.Lcp | frontend/app/api/qingyan/stream/route.js:188-194 | The result is at most both lengths, the two prefixes of that length are equal, and when it is below both lengths the next characters differ: the longest common prefix. |
| Reconcile.LcpUnique | frontend/app/api/qingyan/stream/route.js:188-194 | Any length with those three properties is the longest common prefix length, so the contract determines it. |
| Reconcile.LongestCommonPrefixLen | frontend/app/api/qingyan/stream/route.js:188-194 | The loop returns the longest common prefix length, and 0 when either string is empty. |
| Reconcile.ReconcileStep | frontend/app/api/qingyan/stream/route.js:407-425 | One step emits the delta and sets `lastText` as the reconciliation rule says: the first text whole; on a shared prefix the non-empty suffix and `lastText := text`; otherwise the whole text and `lastText := lastText + text`. |
| Reconcile.FirstTextSentWhole | frontend/app/api/qingyan/stream/route.js:407-409 | The first non-empty text is emitted whole and becomes `lastText`. |
| Reconcile.SharedPrefixReplaces | frontend/app/api/qingyan/stream/route.js:411-416 | When the common prefix is non-empty, `text` replaces `lastText` and the emitted delta is `text[lcp..]` when that is non-empty, else nothing. |
| Reconcile.DisjointAppends | frontend/app/api/qingyan/stream/route.js:419-422 | A text whose first character differs from `lastText` is emitted whole and appended to `lastText`. |
| Reconcile.IgnoreBranchUnreachable | frontend/app/api/qingyan/stream/route.js:417-418 | With non-empty texts the `startsWith` branch is dead: a zero common prefix rules out `lastText.startsWith(text)`. |
| Reconcile.CompatibleStepSendsGrowth | frontend/app/api/qingyan/stream/route.js:407-425 | On a text that extends `lastText` or starts differently, what is emitted is exactly what `lastText` grows by. |
| Reconcile.CompatibleRunSendsLastText | frontend/app/api/qingyan/stream/route.js:407-425 | When every snapshot extends the previous text or shares no first character with it, the emitted deltas concatenate to `lastText`. |
| Reconcile.ShrinkingSnapshotExample | frontend/app/api/qingyan/stream/route.js:411-416 | `"你好"` then `"你"` emits `"你好"` but leaves `lastText == "你"`: the deltas need not concatenate to the final text. |
| UpstreamEvent.Field | frontend/app/api/qingyan/stream/route.js:357-359 | `ev?.result?.key ?? ev?.key`: the `result` field unless it is nullish, else the top-level field. |
| UpstreamEvent.StringField | frontend/app/api/qingyan/stream/route.js:376-377 | A non-empty result is the string stored at that key. |
| UpstreamEvent.ErrorText | frontend/app/api/qingyan/stream/route.js:381 | The error text is `error_msg` if non-empty, else `error_code` if non-empty, else the fallback; it is non-empty when the fallback is. |
| UpstreamEvent.RawText | frontend/app/api/qingyan/stream/route.js:210-219 | The text is `content.text` when that is a non-empty string, else `content` when that is a non-empty string, else none; a falsy message gives none, and a text is never empty. |
| UpstreamEvent.ExtractText | frontend/app/api/qingyan/stream/route.js:210-219 | The chat relay's extraction yields a text exactly when the raw text exists, decoded by `decodeEscapedText`; the score relay's (without decoding) is the raw text. |
| UpstreamEvent.PlainTextSameInBothRelays | frontend/app/api/scores/generate-stream/route.js:70-78 | An event whose text has no backslash reads the same in the chat relay and in the score relay. |
| UpstreamEvent.ResultMessageWins | frontend/app/api/qingyan/stream/route.js:211 | Once `result.message` is set, a top-level `message` is never read. |
| Escapes.DecodeUnicodeEscapes | frontend/app/api/qingyan/suggest-prompts/route.js:37-39 | Replacing `\uXXXX` escapes never lengthens the text and never empties a non-empty one. |
| Escapes.ReplaceEscape | frontend/app/api/qingyan/suggest-prompts/route.js:40-42 | Replacing a backslash-letter escape never lengthens the text and never empties a non-empty one. |
| Escapes.DecodeEscapedText | frontend/app/api/qingyan/suggest-prompts/route.js:34-44 | The decoded text is no longer than the input, and non-empty when the input is; the empty string is returned unchanged. |
| Escapes.ReplaceWithoutEscape | frontend/app/api/qingyan/suggest-prompts/route.js:40-42 | A text without the escape pair is left unchanged by that pass. |
| Escapes.UnicodeWithoutEscape | frontend/app/api/qingyan/suggest-prompts/route.js:37-39 | A text without `\u` is left unchanged by the `\uXXXX` pass. |
| Escapes.GuardsAreShortcuts | frontend/app/api/qingyan/suggest-prompts/route.js:37-40 | The `includes` guards only save work: decoding equals the four passes applied unconditionally. |
| Escapes.NoBackslashUnchanged | frontend/app/api/qingyan/suggest-prompts/route.js:34-44 | A text without backslashes decodes to itself. |
| Escapes.UnicodeEscapeDecodes | frontend/app/api/qingyan/suggest-prompts/route.js:38 | A `\uXXXX` escape naming a non-surrogate code unit decodes to that character, and the rest follows. |
| Escapes.EscapeChar | frontend/app/api/qingyan/suggest-prompts/route.js:12-23 | The combined effect of the five passes on one character contains no control character, and leaves the character alone exactly when it is neither a backslash nor a control character. |
| Escapes.EscapeAppend | frontend/app/api/qingyan/suggest-prompts/route.js:12-23 | `escapeForDisplay` distributes over concatenation. |
| Escapes.EscapeOne | frontend/app/api/qingyan/suggest-prompts/route.js:15-22 | On one character the five passes in source order give the combined per-character escape: backslash doubled first, then CR, LF, TAB, then `\xHH`. |
| Escapes.EscapePerChar | frontend/app/api/qingyan/suggest-prompts/route.js:12-23 | `escapeForDisplay` acts character by character. |
| Escapes.DisplayHasNoControl | frontend/app/api/qingyan/suggest-prompts/route.js:12-23 | Displayed text contains no raw U+0000–U+001F or U+007F character. |
| Escapes.PlainTextDisplayedAsIs | frontend/app/api/qingyan/suggest-prompts/route.js:12-23 | Text without backslashes or control characters is displayed unchanged. |
| Escapes.ReadEscapedChar | frontend/app/api/qingyan/suggest-prompts/route.js:15-22 | Reading back one escaped character gives the character. |
| Escapes.DisplayRoundTrip | frontend/app/api/qingyan/suggest-prompts/route.js:12-23 | Reading `\\`, `\r`, `\n`, `\t` and `\xHH` back from displayed text gives the original: escaping loses nothing. |
| Escapes.DisplayInjective | frontend/app/api/qingyan/suggest-prompts/route.js:12-23 | Different texts are displayed differently. |
| Relay.ReadEvent | frontend/app/api/qingyan/stream/route.js:357-381 | An event reports an error exactly when its status is `'error'` or it has a non-empty `error_msg`/`error_code`; the error message is then non-empty when the fallback is; a text read from it is never empty. |
| Relay.RunAppend | frontend/app/api/qingyan/stream/route.js:356 | Handling `a + b` is handling `a` and then `b`. |
| Relay.RunStopped | frontend/app/api/qingyan/stream/route.js:392-446 | Nothing is processed after the loop stopped. |
| Relay.RunPrefixStops | frontend/app/api/qingyan/stream/route.js:380-447 | Once a prefix of the events stopped the loop, the remaining events change nothing. |
| Relay.RunGrows | frontend/app/api/qingyan/stream/route.js:356-448 | The loop only appends to what it has enqueued. |
| Relay.ErrorStopsBeforeText | frontend/app/api/qingyan/stream/route.js:375-393 | An upstream error stops the loop with exactly one error event (`error_msg`, else `error_code`, else the fallback), after the id sync and before any text of that event is used: `lastText` and `finalText` are untouched. |
| Relay.MetaExactlyOnChange | frontend/app/api/qingyan/stream/route.js:360-366 | A `{type:'meta', conversationId}` event is enqueued, the id stored and the change counted exactly when the event carries a truthy `conversation_id` that is not `===` the stored one; otherwise nothing of that is done. |
| Relay.MetaOnChange | frontend/app/api/qingyan/stream/route.js:360-366 | For the ids read from one event: a `meta` event is appended, the id stored and the change counted exactly when the id is truthy and differs from the stored one. |
| Relay.IdsChangeOnlyToCarried | frontend/app/api/qingyan/stream/route.js:360-372 | The stored `agentConversationId` and `agentLastHistoryId` change only to a truthy id the event carries. |
| Relay.FinishStops | frontend/app/api/qingyan/stream/route.js:429-447 | A `finish` status that is not an error stops the loop, after the event's text was used. |
| Relay.StartInv | frontend/app/api/qingyan/stream/route.js:294-334 | The loop starts in a state where `finalText == lastText` and no sentinel or error has been enqueued. |
| Relay.StepInv | frontend/app/api/qingyan/stream/route.js:355-448 | Every step keeps the invariant: `finalText == lastText`, no `[DONE]` enqueued by the loop, an error event only as the last event of a failed loop, and a failed loop's last event is its error. |
| Relay.RunInv | frontend/app/api/qingyan/stream/route.js:336-449 | The invariant holds after any run of events. |
| Relay.DeltasAppend | frontend/app/api/qingyan/stream/route.js:408-421 | The delta texts of `a + b` are those of `a` followed by those of `b`. |
| Relay.ApplyDeltas | frontend/app/api/qingyan/stream/route.js:396-426 | When the deltas so far spell `lastText` and the event's text is compatible with it, the deltas still spell `lastText` after the event. |
| Relay.CompatibleRunDeltas | frontend/app/api/qingyan/stream/route.js:407-425 | When every reconciled snapshot extends the text so far or starts differently from it, the delta events concatenate to `lastText` after the run. |
| Relay.RelayLoop.constructor | frontend/app/api/qingyan/stream/route.js:332-334 | The loop starts with an empty buffer, empty texts, the stored ids and the initial events. |
| Relay.RelayLoop.HandleEvent | frontend/app/api/qingyan/stream/route.js:356-448 | The loop body over one event changes the loop state exactly as one step of the model and leaves the buffer alone. |
| Relay.RelayLoop.SyncIds | frontend/app/api/qingyan/stream/route.js:360-372 | The id sync changes the state exactly as the two sync functions say. |
| Relay.RelayLoop.Consume | frontend/app/api/qingyan/stream/route.js:374-447 | The rest of the loop body applies the reading of the event: stop on error, reconcile, stop on finish. |
| Relay.RelayLoop.Read | frontend/app/api/qingyan/stream/route.js:337-355 | One read keeps the kept part of `buffer + chunk` and runs the loop body over the ready part's events, `JSON.parse` failures dropped. |
| Relay.RelayLoop.Pump | frontend/app/api/qingyan/stream/route.js:336-449 | Over any chunking, the loop ends in the state reached by running over the events of the text before the last `\n\n`. |
| ChatRoute.EffectiveMessage | frontend/app/api/qingyan/stream/route.js:237-239 | The greeting request sends its message when that is not blank and `'你好'` otherwise, so its prompt is never blank; any other request sends its message. |
| ChatRoute.AgentWith | frontend/app/api/qingyan/stream/route.js:263-266 | The index found is an agent whose field is `===` the wanted value, or -1. |
| ChatRoute.AgentPriority | frontend/app/api/qingyan/stream/route.js:256-270 | The agent id follows the priority order: the request's `assistant_id`, else the conversation's `agentId` (as a string when the registry does not list it); with neither, the agent is one of the registry's. |
| ChatRoute.PickedByName | frontend/app/api/qingyan/stream/route.js:50-56 | With no id anywhere, the agent is one whose name is `===` the wanted name when such an agent exists, and the first agent otherwise. |
| ChatRoute.RefusalsChangeNothing | frontend/app/api/qingyan/stream/route.js:223-254 | A refused request changes nothing; no session gives 401; a streamed answer needs a session, a loaded registry, a non-blank effective message and an owned conversation. |
| ChatRoute.RelayedInv | frontend/app/api/qingyan/stream/route.js:294-449 | After the loop the relay invariant holds and the agent `meta` event is still first. |
| ChatRoute.StreamWellFormed | frontend/app/api/qingyan/stream/route.js:291-462 | The event stream starts with the agent `meta` event and ends with exactly one `[DONE]`; an error event, if any, is the only one and comes right before `[DONE]`. |
| ChatRoute.ResponseWellFormed | frontend/app/api/qingyan/stream/route.js:222-473 | Every streamed response is well formed in that sense. |
| ChatRoute.UpstreamNeedsToken | frontend/app/api/qingyan/stream/route.js:296-461 | Upstream is called exactly when a token was obtained, with the effective message as `prompt`; a token failure yields the error event right after `meta` and leaves the conversation as recorded. |
| ChatRoute.MessagesAppended | frontend/app/api/qingyan/stream/route.js:278-453 | The conversation keeps its messages and gains the user message (not for the greeting request) and then the assistant message, which finally holds the relay's `finalText`, or `''` when the stream failed before the loop. |
| ChatRoute.DeltasAreSavedText | frontend/app/api/qingyan/stream/route.js:407-453 | When every snapshot extends the text so far or starts differently from it, the deltas the client receives concatenate to the text saved in the assistant message. |
| ChatRoute.Post | frontend/app/api/qingyan/stream/route.js:222-473 | The handler updates the conversations, the session index and the token cache and answers exactly as the request model says; scores are untouched. |
| ChatRoute.Accept | frontend/app/api/qingyan/stream/route.js:261-473 | Once the checks pass, the agent is chosen, the conversation opened and its session entry touched, then the stream changes the conversation and the cache as the stream model says; scores are untouched. |
| ChatRoute.HandleServed | frontend/app/api/qingyan/stream/route.js:245-286 | When nothing refuses the request, the owned conversation is opened and replaced, its session entry touched, and the stream produced from it. |
| ChatRoute.Record | frontend/app/api/qingyan/stream/route.js:273-286 | Recording replaces the conversation with its opened form and upserts its session entry; scores are untouched. |
| ChatRoute.Answer | frontend/app/api/qingyan/stream/route.js:291-462 | The streaming part changes the conversation and the token cache as the stream model says and leaves the sessions and scores alone. |
| ScoreRoute.RefusalsChangeNothing | frontend/app/api/scores/generate-stream/route.js:105-116 | A refused request changes nothing; no session gives 401 `未登录`, a missing or empty `convId` gives 400 `缺少 convId`, and the stream starts exactly when the caller owns the conversation. |
| ScoreRoute.OneRecordAppended | frontend/app/api/scores/generate-stream/route.js:119-304 | A streamed request appends exactly one score record, with the `scoreId`, caller, `convId` and request time of the first `meta` event, and keeps the earlier records. |
| ScoreRoute.RelayedInv | frontend/app/api/scores/generate-stream/route.js:125-269 | After the loop the relay invariant holds and the score `meta` event is still first. |
| ScoreRoute.ScoredEvents | frontend/app/api/scores/generate-stream/route.js:122-309 | Every stream is the score `meta` event, then the relayed events, then a `done` event naming the kept record's mode and a single final `[DONE]`; an error event is sent exactly when the route fell back to the keyword score after the registry loaded, and it is then the only one, right before `done`. |
| ScoreRoute.ContactedEvents | frontend/app/api/scores/generate-stream/route.js:173-309 | Once the upstream answered with a body, the stream is well formed and holds an error exactly when the keyword fallback was kept. |
| ScoreRoute.RegistryFailureStaysLocal | frontend/app/api/scores/generate-stream/route.js:127-139 | Without a registry the keyword record is appended at once, the conversation and the token cache are untouched, and the stream is `meta`, `done` (`keyword-mock`), `[DONE]` with nothing posted upstream. |
| ScoreRoute.AgentReportKept | frontend/app/api/scores/generate-stream/route.js:240-296 | The agent report is kept only when the upstream answered with a body and the relay did not fail, and then it is the relay's final text. |
| ScoreRoute.RecordContents | frontend/app/api/scores/generate-stream/route.js:88-288 | The `agent-md` record keeps the report Markdown, the table parsed from it, its summary and the summary's total as score; the fallback is the keyword coverage of the transcript, out of 8 keywords, scored 0 to 100. |
| ScoreRoute.ConversationKeepsMessages | frontend/app/api/scores/generate-stream/route.js:200-210 | The stream changes the conversation only in its two upstream ids and, on a new conversation id, `updatedAt`; its messages are untouched. |
| ScoreRoute.Get | frontend/app/api/scores/generate-stream/route.js:105-320 | The handler updates the conversations, scores and token cache and answers exactly as the request model says; sessions are untouched. |
| ScoreRoute.Accept | frontend/app/api/scores/generate-stream/route.js:119-309 | Once the checks pass, the owned conversation and the token cache change as the stream model says, exactly one record of the branch kept is appended to the scores, and the sessions are untouched. |
| ScoreRoute.FallbackWithoutRegistry | frontend/app/api/scores/generate-stream/route.js:127-139 | When the registry cannot be loaded, nothing but the keyword fallback happens: the conversation and the cache are kept and the events are `meta`, `done` (`keyword-mock`), `[DONE]`. |
| ScoreRoute.Serve | frontend/app/api/scores/generate-stream/route.js:122-309 | The stream part changes the conversation and the cache and answers as the stream model says, leaving sessions and scores alone until the record is appended. |
| ScoreRoute.Exchange | frontend/app/api/scores/generate-stream/route.js:173-309 | After the upstream call, the relay loop and the record kept are as the model says. |
| ScoreRoute.RunLoop | frontend/app/api/scores/generate-stream/route.js:177-269 | The read loop ends in the relay state reached over the framed events of the upstream body. |
| MarkdownTable.TrimAll | frontend/src/lib/markdownTable.js:11 | Each cell is trimmed, and the number of cells is kept. |
| MarkdownTable.SplitRow | frontend/src/lib/markdownTable.js:8-12 | A row has at least one cell. |
| MarkdownTable.AllDashesIff | frontend/src/lib/markdownTable.js:20 | A string is all dashes exactly when it is `-` repeated its length. |
| MarkdownTable.SeparatorCellForms | frontend/src/lib/markdownTable.js:14-21 | A separator cell is exactly `---…`, `:---…`, `---…:` or `:---…:` with at least three dashes. |
| MarkdownTable.TrimPad | frontend/src/lib/markdownTable.js:11 | Trimming a trimmed cell padded by one space each side gives it back. |
| MarkdownTable.SplitJoin | frontend/src/lib/markdownTable.js:11 | Splitting on a separator the parts do not hold gives the parts back. |
| MarkdownTable.StripBetweenPipes | frontend/src/lib/markdownTable.js:1-6 | The outer pipes of a line written between two pipes are removed, leaving its inside. |
| MarkdownTable.TrimPadAll | frontend/src/lib/markdownTable.js:11 | Trimming every padded cell gives the cells back. |
| MarkdownTable.RowRoundTrip | frontend/src/lib/markdownTable.js:8-12 | Reading a row written as `\| c1 \| c2 \| … \|` gives back its cells, for trimmed cells without a pipe. |
| MarkdownTable.LinesTrimmed | frontend/src/lib/markdownTable.js:36 | Every line is non-empty and trimmed. |
| MarkdownTable.HasPipeIff | frontend/src/lib/markdownTable.js:27-46 | A line holds a pipe exactly when `'\|'` occurs in it. |
| MarkdownTable.FirstTable | frontend/src/lib/markdownTable.js:23-32 | The index found is -1 or a table start (a line with a pipe followed by a separator row), and no earlier line starts a table. |
| MarkdownTable.IsTableStart | frontend/src/lib/markdownTable.js:27-28 | The test is true exactly when the line starts a table. |
| MarkdownTable.FindFirstTableAt | frontend/src/lib/markdownTable.js:23-32 | The loop returns the first table start, or -1. |
| MarkdownTable.HeaderFieldsCells | frontend/src/lib/markdownTable.js:53-55 | Every header becomes a key, holding the cell under its last occurrence, or `''` past the row's end. |
| MarkdownTable.HeaderFieldsKeys | frontend/src/lib/markdownTable.js:53-55 | The keys are exactly the headers. |
| MarkdownTable.BodyRowsBound | frontend/src/lib/markdownTable.js:44-58 | At most one row per line, and each row is made from one of the lines. |
| MarkdownTable.BodyEnd | frontend/src/lib/markdownTable.js:44-46 | The body is the run of lines from the first body line that hold a pipe. |
| MarkdownTable.Headers | frontend/src/lib/markdownTable.js:41 | No header cell is empty. |
| MarkdownTable.NoTableEmpty | frontend/src/lib/markdownTable.js:39 | Without a table the result is empty headers and rows. |
| MarkdownTable.BuildRow | frontend/src/lib/markdownTable.js:52-56 | The row object has each header's cell and `_cols` holding all cells. |
| MarkdownTable.ReadBodyLine | frontend/src/lib/markdownTable.js:45-57 | A separator row or a row of blank cells is skipped, any other line gives its row object. |
| MarkdownTable.ReadBody | frontend/src/lib/markdownTable.js:44-58 | The body loop stops at the first line without a pipe and returns the rows of the lines before it, in order. |
| MarkdownTable.ReadTable | frontend/src/lib/markdownTable.js:41-60 | The table read at the first table start has its header cells and body rows. |
| MarkdownTable.ParseMarkdownPipeTable | frontend/src/lib/markdownTable.js:34-61 | The parser returns the table the model defines for the text. |
| MarkdownTable.CellsHaveNoPipe | frontend/src/lib/markdownTable.js:11 | No cell of a row holds a pipe. |
| MarkdownTable.HeadersHaveNoPipe | frontend/src/lib/markdownTable.js:41 | The header cells are non-empty and hold no pipe. |
| MarkdownTable.NoTableAnywhere | frontend/src/lib/markdownTable.js:23-39 | Without a line holding a pipe followed by a separator row, the table is empty. |
| MarkdownTable.TableHeaders | frontend/src/lib/markdownTable.js:41 | The table's header cells are non-empty and hold no pipe. |
| MarkdownTable.BodyRowsOfKeptLines | frontend/src/lib/markdownTable.js:44-58 | Each row of a body slice is the object of one kept line. |
| MarkdownTable.TableRows | frontend/src/lib/markdownTable.js:44-58 | Each row is the object of a kept line (holding a pipe, not a separator, not all blank), keyed by the table's headers. |
| MarkdownTable.TableRowCount | frontend/src/lib/markdownTable.js:44-58 | There is at most one row per line. |
| ScoreSummary.RunOf | frontend/src/lib/markdownTable.js:67-77 | A greedy run from `i` stays within the text. |
| ScoreSummary.RunOfEnd | frontend/src/lib/markdownTable.js:67-77 | A greedy run ends at the end of the text or at a character that fails the test. |
| ScoreSummary.RunOfStops | frontend/src/lib/markdownTable.js:67-77 | A greedy run stops exactly at the first character that fails the test. |
| ScoreSummary.NumberAt | frontend/src/lib/markdownTable.js:67-68 | A match of `-?\d+(?:\.\d+)?` has a non-empty run of integer digits. |
| ScoreSummary.NumberAtParts | frontend/src/lib/markdownTable.js:67-68 | A match lies in the text as its sign, its integer digits, and a point and fraction digits when it has a fraction. |
| ScoreSummary.NumberAtText | frontend/src/lib/markdownTable.js:67-68 | A match is the text at its position. |
| ScoreSummary.NumberAtGreedy | frontend/src/lib/markdownTable.js:67-68 | A match is as long as it can be: no digit follows it, and a match without a fraction is not followed by a point and a digit. |
| ScoreSummary.FirstNumber | frontend/src/lib/markdownTable.js:67-69 | The position found is -1 or the start of a match. |
| ScoreSummary.FirstNumberLeast | frontend/src/lib/markdownTable.js:67-69 | No match starts before the first one. |
| ScoreSummary.WholeNumberText | frontend/src/lib/markdownTable.js:63-71 | A text that is an optional `-` followed by digits reads as its signed digits. |
| ScoreSummary.StringNumber | frontend/src/lib/markdownTable.js:63-66 | A non-empty trimmed string value is read as its own text. |
| ScoreSummary.NatRoundTrip | frontend/src/lib/markdownTable.js:63-71 | The text of a natural number reads back as that number. |
| ScoreSummary.IntRoundTrip | frontend/src/lib/markdownTable.js:63-71 | The text of an integer reads back as that integer. |
| ScoreSummary.NegativeRoundTrip | frontend/src/lib/markdownTable.js:63-71 | A minus sign followed by the digits of a positive number reads back as that negative number. |
| ScoreSummary.FirstPoints | frontend/src/lib/markdownTable.js:77-79 | The position found is -1 or an opening bracket where `（N分）` matches. |
| ScoreSummary.FirstPointsLeast | frontend/src/lib/markdownTable.js:77-79 | The maximum comes from the first bracket that matches: none matches before it. |
| ScoreSummary.PointsAtBracket | frontend/src/lib/markdownTable.js:77-81 | `（N分）` or `(N分)` matches at its opening bracket and gives N. |
| ScoreSummary.MaxPointsRoundTrip | frontend/src/lib/markdownTable.js:74-82 | An item title followed by its maximum in brackets of either style gives that maximum back when the title opens no bracket. |
| ScoreSummary.FirstHeaderWith | frontend/src/lib/markdownTable.js:88-91 | The header found is -1 or a header that contains the key. |
| ScoreSummary.ColumnChoice | frontend/src/lib/markdownTable.js:88-91 | The column is the first header that contains the key; when none does, the header at the column's position if that is non-empty, else the default title. |
| ScoreSummary.ItemsOfRows | frontend/src/lib/markdownTable.js:93-103 | The items are exactly the items of the rows whose name is truthy. |
| ScoreSummary.TotalIndex | frontend/src/lib/markdownTable.js:105 | The index found is -1 or an item marked as a total. |
| ScoreSummary.RoundBounds | frontend/src/lib/markdownTable.js:113 | Rounding stays within half of the value. |
| ScoreSummary.RoundWhole | frontend/src/lib/markdownTable.js:113 | Rounding a whole number gives it back. |
| ScoreSummary.TotalFromTotalRow | frontend/src/lib/markdownTable.js:105-112 | The total is the score of the first item marked as a total when that score is a number. |
| ScoreSummary.TotalFromSum | frontend/src/lib/markdownTable.js:108-113 | Without a total item, the total is the positive sum of the other scores rounded to within one half, exact for a whole sum, and nothing when the sum is not positive. |
| ScoreSummary.TotalMarker | frontend/src/lib/markdownTable.js:100 | Only `总计` marks a total: an item named `总分` is an ordinary item. |
| KeywordScore.Covered | frontend/app/api/scores/generate-stream/route.js:91 | At most eight keywords are covered. |
| KeywordScore.PercentRange | frontend/app/api/scores/generate-stream/route.js:92 | The score is 0 for no keyword and 100 for all eight, stays within 0 to 100, and never falls as coverage grows. |
| KeywordScore.PercentTable | frontend/app/api/scores/generate-stream/route.js:92 | The nine possible scores are 0, 13, 25, 38, 50, 63, 75, 88 and 100. |
| KeywordScore.TranscriptPrefix | frontend/app/api/scores/generate-stream/route.js:90 | The transcript after more messages begins with the earlier transcript. |
| KeywordScore.CoverageGrows | frontend/app/api/scores/generate-stream/route.js:90-92 | Adding messages never lowers the coverage or the score. |
| KeywordScore.CoveredExtremes | frontend/app/api/scores/generate-stream/route.js:91 | A text with every keyword covers eight, one with none covers none. |
| KeywordScore.FallbackRecord | frontend/app/api/scores/generate-stream/route.js:88-103 | The `keyword-mock` record names the score, the caller, the conversation and the time, with the coverage of the transcript out of 8 and its percentage between 0 and 100. |
| Send.Lower | frontend/app/api/send/route.js:7 | Lower-casing keeps the length and maps every character alone. |
| Send.LowerKeepsKeyword | frontend/app/api/send/route.js:7-10 | A keyword without ASCII letters occurs in the lower-cased text exactly where it occurs in the text. |
| Send.LowerContains | frontend/app/api/send/route.js:7-10 | Such a keyword is in the lower-cased text exactly when it is in the text. |
| Send.ReplyPriority | frontend/app/api/send/route.js:6-12 | The reply follows the first keyword group the message mentions, in the order fever (`发烧`/`发热`), cough (`咳`), pain (`痛`), else the general prompt; lower-casing never matters and `咳嗽` adds nothing to `咳`. |
| Send.TwoMessagesAppended | frontend/app/api/send/route.js:14-27 | Only a reply changes anything; then the caller's conversation alone gains exactly two messages, the user's text and then the reply chosen for it, and is returned. |
| Send.RefusalOrder | frontend/app/api/send/route.js:15-18 | No session gives exactly 401 `未登录`; with a session, a falsy message gives exactly 400 `消息为空`. |
| Send.Post | frontend/app/api/send/route.js:14-27 | The handler updates the conversations and answers as the request model says; sessions and scores are untouched. |
| ScoresGenerate.OneRecordOrNone | frontend/app/api/scores/generate/route.js:8-22 | No session redirects to `/login`; a redirect other than `/scores` adds nothing; a redirect to `/scores` follows exactly one new record for the caller's own conversation, with total 8, at most 8 covered and a score in 0..100. |
| ScoresGenerate.SameAsFallback | frontend/app/api/scores/generate/route.js:15-19 | The record written is the score relay's keyword fallback without its mode. |
| ScoresGenerate.Get | frontend/app/api/scores/generate/route.js:8-22 | The handler appends to the score list as the request model says and changes nothing else. |
| Conversations.Root | frontend/app/api/conversations/route.js:41-42 | The root title is never empty. |
| Conversations.ScanTitles | frontend/app/api/conversations/route.js:44-55 | The loop finds whether the root itself is taken and the largest suffix `n` of a title `root（n）`. |
| Conversations.MakeUniqueTitle | frontend/app/api/conversations/route.js:40-58 | The title is the root when it is free and no title is numbered, else the root numbered one above the largest suffix (at least 1). |
| Conversations.MaxSuffixIsMax | frontend/app/api/conversations/route.js:48-55 | No title has a larger suffix than the one found, and a positive one belongs to some title. |
| Conversations.NumberedSuffix | frontend/app/api/conversations/route.js:46-57 | A numbered title reads back as its number and differs from the root. |
| Conversations.UniqueTitleIsFresh | frontend/app/api/conversations/route.js:40-58 | The title returned is none of the existing titles. |
| Conversations.RootKeptIff | frontend/app/api/conversations/route.js:56 | The root is kept exactly when it is free and no title is the root numbered above 0. |
| Conversations.ListIsOwn | frontend/app/api/conversations/route.js:15-23 | No session is refused; outside bypass mode the list holds exactly the caller's conversations; in bypass mode it holds all of them. |
| Conversations.NewSessionId | frontend/app/api/conversations/route.js:80-86 | The session entry pushed carries the new conversation's id. |
| Conversations.NewTitleIsFresh | frontend/app/api/conversations/route.js:36-63 | The new title is none of the caller's existing titles. |
| Conversations.CreatedShape | frontend/app/api/conversations/route.js:25-90 | A refusal changes nothing; a creation appends a conversation with no messages, both times the clock, no upstream conversation and a fresh title, and appends exactly one session entry with its id. |
| Conversations.RootOfTitle | frontend/app/api/conversations/route.js:60-62 | A non-blank string title is used trimmed. |
| Conversations.Post | frontend/app/api/conversations/route.js:25-90 | The handler updates the conversations and the session index as the creation model says; scores are untouched. |
| Conversations.DeleteCascade | frontend/app/api/conversations/route.js:92-111 | A refusal changes nothing; a deletion removes exactly the first of the caller's conversations with that id, every session entry with that id and every score of the caller for it, keeping everything else. |
| Conversations.Remove | frontend/app/api/conversations/route.js:92-111 | The handler splices the conversations and filters the sessions and scores as the deletion model says. |
| AgentSessions.Put | frontend/app/api/agent-sessions/route.js:22 | `Map.prototype.set` adds at most one slot. |
| AgentSessions.PutKeys | frontend/app/api/agent-sessions/route.js:22 | `set` adds the key at the end when it is new and otherwise keeps the keys and their order. |
| AgentSessions.PutSlots | frontend/app/api/agent-sessions/route.js:22 | After `set` the key holds the new value; every other slot is an old one, in its old place. |
| AgentSessions.PutKeeps | frontend/app/api/agent-sessions/route.js:22 | `set` under an entry's own key keeps the map well keyed: every key once, each entry under `String(conversationId)`. |
| AgentSessions.FromSessionsKeyed | frontend/app/api/agent-sessions/route.js:15-16 | The map built from the stored entries is well keyed, and its keys are exactly the entries' keys. |
| AgentSessions.SynthesizedKey | frontend/app/api/agent-sessions/route.js:22-28 | The entry made for a conversation is filed under its id. |
| AgentSessions.CompletedAppends | frontend/app/api/agent-sessions/route.js:19-31 | Completing the map only appends entries. |
| AgentSessions.CompletedKeys | frontend/app/api/agent-sessions/route.js:19-31 | Afterwards the keys are the old ones and the visible conversations' ids. |
| AgentSessions.CompletedGrows | frontend/app/api/agent-sessions/route.js:19-31 | Completing adds entries exactly when some visible conversation had none. |
| AgentSessions.CompletedKeyed | frontend/app/api/agent-sessions/route.js:19-31 | Completing keeps the map well keyed. |
| AgentSessions.Complete | frontend/app/api/agent-sessions/route.js:18-31 | The loop gives the completed map, and `changed` is set exactly when it grew. |
| AgentSessions.InsertPerm | frontend/app/api/agent-sessions/route.js:38 | Inserting one element into a list adds exactly that element. |
| AgentSessions.InsertSorted | frontend/app/api/agent-sessions/route.js:38 | Inserting into a list sorted by `updatedAt \|\| 0`, highest first, keeps it sorted. |
| AgentSessions.SortDescSorted | frontend/app/api/agent-sessions/route.js:38 | The sort orders by `updatedAt \|\| 0`, highest first, and is a permutation. |
| AgentSessions.SortStable | frontend/app/api/agent-sessions/route.js:38 | The sort is stable: the entries of equal rank keep their order. |
| AgentSessions.ListingSorted | frontend/app/api/agent-sessions/route.js:36-38 | The listing is sorted most recently updated first and holds exactly the map's entries filed under a visible conversation's id. |
| AgentSessions.ListingShape | frontend/app/api/agent-sessions/route.js:36-38 | The listing holds an entry for every visible conversation and only for visible ones. |
| AgentSessions.SavedShape | frontend/app/api/agent-sessions/route.js:15-33 | The saved index is well keyed and keeps the key of every stored entry that is an object or an array (an array is filed under `"undefined"`). |
| AgentSessions.ListRefusal | frontend/app/api/agent-sessions/route.js:7-10 | A caller with no session is refused, and nothing is saved. |
| AgentSessions.ListShape | frontend/app/api/agent-sessions/route.js:7-41 | A caller with a session gets the listing of the completed map, which covers every visible conversation; the index is saved exactly when a visible conversation had no entry; stored entries that are objects or arrays are kept, others dropped. |
| AgentSessions.Get | frontend/app/api/agent-sessions/route.js:7-41 | The handler saves the session index and answers as the listing model says; conversations and scores are untouched. |
| AgentSessions.PatchAsWrittenDuplicates | frontend/app/api/agent-sessions/route.js:52-65 | As written, a numeric `conversationId` never finds the entry written under its string form: posting `{conversationId: 5}` twice leaves two entries for `"5"`. |
| AgentSessions.PatchIdempotent | frontend/app/api/agent-sessions/route.js:44-69 | With the lookup by `String(conversationId)`, a refusal happens exactly when there is no session or no truthy id and changes nothing; the lookup throws exactly when a `null` entry precedes the match (or the end), changing nothing; repeating a request changes nothing more; a new id gets exactly one entry and an existing count is kept; every field of the response is written into an entry. |
| AgentSessions.NullEntryThrows | frontend/app/api/agent-sessions/route.js:52-53 | A `null` entry ahead of the posted id makes `POST` throw, in the route as written and as corrected, and the index is left as it was. |
| AgentSessions.Post | frontend/app/api/agent-sessions/route.js:44-69 | The handler, with the corrected lookup, updates the session index as the patch model says; conversations and scores are untouched. |
| StreamAgent.DispatchAppend | frontend/src/agent/streamAgent.js:70-81 | Handling `a` then `b` is handling `a + b`; once handling stopped, nothing more is handled. |
| StreamAgent.DispatchEvents | frontend/src/agent/streamAgent.js:70-79 | The inner loop makes the calls of the dispatch model and reports whether an error stopped it. |
| StreamAgent.Read | frontend/src/agent/streamAgent.js:59-79 | One read keeps the rest of `buffer + chunk` after its last blank line and handles the ready part's events as the dispatch model says. |
| StreamAgent.StreamAgentReply | frontend/src/agent/streamAgent.js:24-88 | The function makes exactly the calls of the reply model. |
| StreamAgent.Finish | frontend/src/agent/streamAgent.js:58-82 | Where the read loop stopped does not matter: the calls are those for the framed events of the whole body. |
| StreamAgent.StopIndex | frontend/src/agent/streamAgent.js:70-79 | Handling stops at the first `null` or error event, or at the end. |
| StreamAgent.CallbacksAppend | frontend/src/agent/streamAgent.js:71-75 | Delta texts and `onDone` counts of `a + b` are those of `a` and `b` together. |
| StreamAgent.DispatchShape | frontend/src/agent/streamAgent.js:70-79 | `onDelta` gets the string delta of every delta event before the stop, in order; `onDone` fires once per done event before it; `onError` comes only as the last call, exactly when handling stopped. |
| StreamAgent.ReplyShape | frontend/src/agent/streamAgent.js:24-88 | A failed response or a missing body gives exactly one `onError`; otherwise the deltas before the first error arrive in order, `onDone` fires once per done event and once more at the end of a stream with no error, and `onError` comes at most once, last. |
| SuggestPrompts.LogIdIff | frontend/app/api/qingyan/suggest-prompts/route.js:97-102 | `log_id` is sent exactly when the conversation has a truthy last history id, and then it is that id; `conversation_id` is the conversation's upstream id. |
| SuggestPrompts.PromptList | frontend/app/api/qingyan/suggest-prompts/route.js:135-141 | At most six prompts, the first candidates in order (non-blank strings, decoded); nothing when the list is not an array. |
| SuggestPrompts.PromptsComeFromList | frontend/app/api/qingyan/suggest-prompts/route.js:135-141 | Every prompt is a non-blank string item of the upstream list, decoded. |
| SuggestPrompts.HandleEffects | frontend/app/api/qingyan/suggest-prompts/route.js:72-158 | A refusal by the checks changes nothing and touches no token; an upstream failure leaves the conversations as they were; a success changes only the caller's conversation's `updatedAt`, to the clock, and returns at most six prompts. |
| SuggestPrompts.Post | frontend/app/api/qingyan/suggest-prompts/route.js:72-158 | The handler updates the conversations and the token cache and answers as the request model says. |
| Patterns.IndexOf | frontend/src/lib/paramCheck.js:7 | The index found is -1 or holds the character, and no earlier index does. |
| Patterns.LastIndexOf | frontend/src/lib/paramCheck.js:7 | The index found is -1 or holds the character, and no later index does. |
| Patterns.EmailDecides | frontend/src/lib/paramCheck.js:7 | Deciding the e-mail pattern with the first `@` and the last dot agrees with the pattern's own reading (some `@` and dot placement) on every string. |
| ParamCheckJs.IsNullOrEmpty | frontend/src/lib/paramCheck.js:1-3 | True exactly for `null`, `undefined` or a value whose string is all JavaScript white space. |
| ParamCheckJs.IsAvailEmail | frontend/src/lib/paramCheck.js:5-9 | True exactly when the text (`''` for `null`) matches `^[a-zA-Z0-9._%+-]+@[a-zA-Z0-9.-]+\.[a-zA-Z]{2,}$`. |
| ParamCheckJs.IsAbailPassword | frontend/src/lib/paramCheck.js:11-23 | True exactly when the text has an upper-case letter, a digit and a special character and is at least eight characters long. |
| ParamCheckJs.IsAbailUsername | frontend/src/lib/paramCheck.js:25-30 | True exactly when the text is 3 to 30 word characters. |
| ParamCheckJs.IsAvailVerifyCode | frontend/src/lib/paramCheck.js:32-35 | True exactly when the value is not `null` and its trimmed string is six digits. |
| ParamCheckJava.IsNullOrEmpty | backend/src/main/java/com/medisage/utils/ParamCheck.java:4-6 | True exactly for `null` or a string of characters all at most U+0020. |
| ParamCheckJava.IsAvailEmail | backend/src/main/java/com/medisage/utils/ParamCheck.java:8-11 | True exactly for a non-null string that matches the e-mail pattern as a whole. |
| ParamCheckJava.IsAbailPassword | backend/src/main/java/com/medisage/utils/ParamCheck.java:13-28 | A `null` password throws `NullPointerException`, and only a `null` one; a string is accepted exactly when it holds no line terminator, an upper-case letter, a digit, a special character, and at least eight characters. |
| ParamCheckJava.IsAbailUsername | backend/src/main/java/com/medisage/utils/ParamCheck.java:30-36 | A string is accepted exactly when it is non-null and has 3 to 30 characters, each a letter, digit or underscore. |
| ParamCheckJava.IsAbailCode | backend/src/main/java/com/medisage/utils/ParamCheck.java:38-41 | A string is accepted exactly when it is non-null and is six characters, each a decimal digit. |
| ParamCheckJava.EmailAgrees | backend/src/main/java/com/medisage/utils/ParamCheck.java:8-11 | The backend and the client accept the same e-mail strings, and both reject `null`. |
| ParamCheckJava.UsernameAgrees | backend/src/main/java/com/medisage/utils/ParamCheck.java:30-36 | The backend and the client accept the same user names, and both reject `null`. |
| ParamCheckJava.PasswordDiffers | backend/src/main/java/com/medisage/utils/ParamCheck.java:13-28 | The backend accepts a password exactly when the client does and it holds no line terminator; `null` throws in the backend and is rejected by the client. |
| ParamCheckJava.PasswordWithNewline | backend/src/main/java/com/medisage/utils/ParamCheck.java:14-16 | `"Abcdef1!\n"` is accepted by the client and rejected by the backend. |
| ParamCheckJava.CodeDiffers | backend/src/main/java/com/medisage/utils/ParamCheck.java:38-41 | A code the backend accepts the client accepts, and the client accepts a code exactly when the backend accepts it trimmed. |
| ParamCheckJava.CodeWithSpace | backend/src/main/java/com/medisage/utils/ParamCheck.java:38-41 | `" 123456"` is accepted by the client and rejected by the backend. |
| ParamCheckJava.BlankDiffers | backend/src/main/java/com/medisage/utils/ParamCheck.java:4-6 | A no-break space alone is blank to the client and not to the backend; U+0001 alone is blank to the backend and not to the client. |
| ParamCheckJava.BlankOne | backend/src/main/java/com/medisage/utils/ParamCheck.java:4-6 | On a single character the client's blank test is JavaScript white space and the backend's is a character at or below U+0020. |
| ParamCheckJava.LeadingSpaceCode | backend/src/main/java/com/medisage/utils/ParamCheck.java:38-41 | Six digits after a space are accepted by the client, which trims, and rejected by the backend, which counts seven characters. |
| EmailVerification.SuccessOnlyOk | backend/src/main/java/com/medisage/app/EmailVerificationService.java:190-203 | Of the results the service builds, only `ok()` is a success: status 200 with no error. |
| Strings.Pow10 | backend/src/main/java/com/medisage/app/EmailVerificationService.java:110 | Powers of ten are positive. |
| EmailVerification.ZeroPadded | backend/src/main/java/com/medisage/app/EmailVerificationService.java:110 | `%0wd` of a number below `10^w` is `w` digits whose value is the number. |
| EmailVerification.SixDigitCodeShape | backend/src/main/java/com/medisage/app/EmailVerificationService.java:108-111 | A code is six digits whose value is the draw, so distinct draws give distinct codes, and the backend's own code check accepts it. |
| EmailVerification.HashInputBinds | backend/src/main/java/com/medisage/app/EmailVerificationService.java:113-115 | For well-formed addresses, the hashed input `email:code` determines both the address and the code, so a code cannot be replayed for another address. |
| EmailVerification.NoColon | backend/src/main/java/com/medisage/app/EmailVerificationService.java:56-115 | A well-formed address holds no colon. |
| EmailVerification.CodeHash | backend/src/main/java/com/medisage/app/EmailVerificationService.java:113-123 | The hash is the HMAC under the secret when one is configured and not blank, else the SHA-256 of `email:code`. |
| EmailVerification.FormatFrom | backend/src/main/java/com/medisage/app/EmailVerificationService.java:146-150 | Without a usable name the sender is the bare address; with one it is `name <address>`: it starts with the name and ends with the address in angle brackets. |
| EmailVerification.TtlMinutes | backend/src/main/java/com/medisage/app/EmailVerificationService.java:153 | The lifetime shown is at least one minute, the whole number of minutes in `ttlSeconds` from a minute up, and one minute below two. |
| EmailVerification.LatestCreatedAt | backend/src/main/java/com/medisage/app/EmailVerificationService.java:61 | Nothing exactly when the address has no row; otherwise the `created_at` of one of its rows, and no later than any of them. |
| EmailVerification.Consumed | backend/src/main/java/com/medisage/app/EmailVerificationService.java:99 | Consuming marks `used_at = now` on exactly the usable rows of the address and hash and leaves every other row as it was. |
| EmailVerification.ConsumeOnce | backend/src/main/java/com/medisage/app/EmailVerificationService.java:99-102 | After consuming, no row is usable for that code any more; with no usable row, nothing changes. |
| EmailVerification.EmailRejectedIff | backend/src/main/java/com/medisage/app/EmailVerificationService.java:56-91 | An address is rejected exactly when it is `null` or does not match the e-mail pattern: the blank test adds nothing. |
| EmailVerification.SendCases | backend/src/main/java/com/medisage/app/EmailVerificationService.java:55-88 | A rejected address or a resend sooner than `minResendSeconds` after the latest code returns 400 or 429 and changes nothing; otherwise exactly one unused row is added, expiring `ttlSeconds` after now and holding the hash of the mailed code, the call returns `ok()` exactly when the mail is accepted, and the row stays when it is not. |
| EmailVerification.ResendThrottled | backend/src/main/java/com/medisage/app/EmailVerificationService.java:59-67 | Right after a successful send, another send for the same address less than `minResendSeconds` later is refused with 429 and changes nothing. |
| EmailVerification.VerifySucceedsIff | backend/src/main/java/com/medisage/app/EmailVerificationService.java:90-106 | Verification succeeds exactly when the address is well formed, the code has six characters not all of them at most U+0020, and an unused, unexpired row holds its hash; the digits are not checked. |
| EmailVerification.VerifyEffects | backend/src/main/java/com/medisage/app/EmailVerificationService.java:90-106 | Only a success changes anything: it consumes the code's rows and sets the `email_verified` flag of the address's user, leaving an address with no user unregistered; a failure is a 400 or a 401 and leaves the store as it was; no mail is sent. |
| EmailVerification.VerifyOnce | backend/src/main/java/com/medisage/app/EmailVerificationService.java:99-102 | Repeating a successful verification at the same moment is refused with 401. |
| EmailVerification.Db.constructor | backend/src/main/java/com/medisage/app/EmailVerificationService.java:28 | The database starts with the given code rows and users. |
| EmailVerification.Db.InsertVerificationCode | backend/src/main/java/com/medisage/app/EmailVerificationService.java:73 | Inserting appends one unused row created now and leaves the users alone. |
| EmailVerification.Db.ConsumeVerificationCode | backend/src/main/java/com/medisage/app/EmailVerificationService.java:99 | The update reports whether a row was usable and consumes exactly the usable rows. |
| EmailVerification.MarkVerified | backend/src/main/java/com/medisage/db/DbController.java:151-156 | The UPDATE sets the flag of the address's user and no other; an address with no user row changes nothing and no user is added. |
| EmailVerification.Db.MarkEmailVerified | backend/src/main/java/com/medisage/db/DbController.java:151-156 | The update reports one row for a registered address and none otherwise, and sets only that user's flag; the code rows are untouched. |
| EmailVerification.Service.constructor | backend/src/main/java/com/medisage/app/EmailVerificationService.java:36-53 | The service starts with its database, settings and digests and an empty outbox. |
| EmailVerification.Service.SendCode | backend/src/main/java/com/medisage/app/EmailVerificationService.java:55-88 | `sendCode` changes the rows and the outbox and returns exactly as the send model says. |
| EmailVerification.Service.IssueCode | backend/src/main/java/com/medisage/app/EmailVerificationService.java:69-87 | The code is generated, its row inserted and the mail sent as the issue model says. |
| EmailVerification.Service.VerifyCode | backend/src/main/java/com/medisage/app/EmailVerificationService.java:90-106 | `verifyCode` changes the code rows and the users' flags and returns exactly as the verification model says. |
| EmailVerification.Service.RedeemCode | backend/src/main/java/com/medisage/app/EmailVerificationService.java:98-105 | The code is consumed and, when a row was usable, the flag of the address's user set, as the redeem model says. |
| EmailVerification.RegisterLeavesFlagUnset | backend/src/main/java/com/medisage/api/Register.java:63-80 | As written, registration succeeds exactly for an unregistered address with a valid code, and the new user keeps the column's default flag, since the code is verified before the user row exists; a failure changes nothing. |
| EmailVerification.RegisterVerifies | backend/src/main/java/com/medisage/api/Register.java:63-80 | With the user created before the address is marked, a successful registration leaves the new user verified whatever the default; success and failure are as written. |
| EmailVerification.CodeAcceptedIff | backend/src/main/java/com/medisage/app/EmailVerificationService.java:94 | The code check passes exactly for six characters not all at most U+0020. |
| Strings.LastDoubleNewline | frontend/app/api/qingyan/stream/route.js:341 | `lastIndexOf('\n\n')` is -1 exactly when the text has no `\n\n`, and otherwise the start of the last one. |
| Strings.Split | frontend/app/api/qingyan/stream/route.js:169 | `split` on one character gives at least one part. |
| Strings.JoinSplit | frontend/app/api/qingyan/stream/route.js:169 | Joining the parts of `split` with the separator gives the text back. |
| Strings.TrimEmptyIff | frontend/src/lib/paramCheck.js:2 | A text trims to nothing exactly when all its characters are white space. |
| ChatRoute.Greeting | frontend/app/api/qingyan/stream/route.js:238 | The default greeting `'你好'` is non-empty and has no space around it. |
| Escapes.LowerHexDigit | frontend/app/api/qingyan/suggest-prompts/route.js:19 | The lower-case hexadecimal digit written for a value reads back as that value. |

## Left out

- Numbers in JSON are integers only (`Json.JNum`). IEEE doubles, fractions and `NaN` are not modelled; scores parsed from tables are exact rationals, rounded half up where the source uses `Math.round`.
- The record store's file I/O (`store.js` reading and writing `data/*.json`) is not modelled: the store is the in-memory `Records.Store` object, and its records are typed, except the session index, whose entries are any decoded values.
- Strings are sequences of characters, not of UTF-16 code units: surrogate pairs and `String.length` in code units are not modelled; a `\uXXXX` escape naming U+D800–U+DFFF is kept as written.
- Concurrency is not modelled: two requests that refresh the token at the same time, and streams running side by side, are outside the model.
- Hashing (SHA-256 of the verification code) is a parameter function; sending the e-mail is the `mailOk` outcome, and the HTML body of the message is reduced to the `Mail` record it is built from. `debugLog` and `rawPreview` output is not modelled.
- Each request reads the clock once; the database's `NOW()` is taken to be that same instant.
- The `users` table is a map from each registered address to its `email_verified` flag; its other columns and the SQL text of the other queries are not modelled.
- A request body that `req.json()` fails to parse in the chat, send and conversations routes and the session index's `POST`, and a throwing prompt registry in the prompt-suggestion route, are not modelled: the body is given as a parsed value.
- A `fetch` that throws (network failure) is not modelled; each reply of the assistant service is one of the modelled outcomes.
- The user interface, `AgentRequestService`, `AgentController`, the SQL of `DbController`, JWT signing and password hashing, and the thin controllers that only forward to the modelled services are not part of this model.
- Json.ToNumber: integers only, so a fraction that does not cancel (`1.5`), `Infinity` and values beyond double range or precision are not what `Number` gives: the first two read as `NaN`, the last keep their exact value.
- Json.NumberOr: inherits the integer-only conversion of `Json.ToNumber`; a non-integer number the source would keep falls back to the default.
- EmailVerification.RegisterLeavesFlagUnset: the parameter checks that come before it in the handler are the `ParamCheckJava` functions and are not repeated; the password hash and role of the new user are not modelled.
- Send.Lower: maps only `A`–`Z` to lower case, as the keywords and texts it compares are otherwise unaffected by `toLowerCase`.
- AgentSessions.SortDescSorted: a timestamp that does not parse (`NaN` in the source) ranks as 0.
- Conversations.UniqueTitleIsFresh: title suffixes are unbounded integers; loss of precision of `Number` above 2^53 is not modelled.
- Strings.IntToString: produces plain decimal digits only; the exponent form JavaScript uses for very large numbers is not modelled.
- StreamAgent.StreamAgentReply: the construction of the request body and the abort signal are not modelled, and the `TypeError` raised for a missing body is the `nullMessage` parameter.
- EmailVerification.IsJavaWhitespace: fixed to the whitespace characters of the model's alphabet; its dependence on the Unicode version of the Java runtime is not modelled.
- EmailVerification.FormatFrom: modelled for completeness, though `sendCode` builds its sender through `InternetAddress`, which is not part of this model.
- EmailVerification.Service.SendCode: requires the random draw to lie in 0..999999, the range `nextInt(1000000)` promises.
- Downstream.WireEvents: requires that `JSON.parse` inverts `JSON.stringify` on the written payloads, which the serializer is not part of this model to prove.

## Findings

| source | as written | input that shows it | evidently intended | confidence | as-written member | corrected member |
|---|---|---|---|---|---|---|
| frontend/app/api/agent-sessions/route.js:53,57 | the existing entry is looked up by the raw `item.conversationId` with `===`, but a new entry is stored under `String(item.conversationId)` | posting `{conversationId: 5}` twice stores two entries with id `"5"` | look up by `String(conversationId)`, so that posting the same session again updates its entry | not executed | AgentSessions.PatchAsWrittenDuplicates | AgentSessions.PatchIdempotent |
| backend/src/main/java/com/medisage/api/Register.java:70,78 | `verifyCode` (which marks the address verified) runs before `createUser`, so its UPDATE matches no row and the new user keeps the column default | registering a new address with a valid code | create the user, then mark its address verified | not executed | EmailVerification.RegisterLeavesFlagUnset | EmailVerification.RegisterVerifies |
