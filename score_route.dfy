/** `GET /api/scores/generate-stream`: the score relay. The request is checked (session, `convId`,
    conversation), then the stream starts with a `meta` event naming the score. Without an agent
    registry the keyword-coverage score is recorded at once. Otherwise the scoring prompt goes
    upstream and the relay loop runs over the reply; when it finishes or the reply ends, the
    agent's Markdown table is parsed, summarised and recorded. Any failure on the way (no assistant
    id, no token, a failed upstream response, an upstream error event) is caught: one error event,
    the keyword-coverage score as a fallback record, and a `done` event naming that mode. Every
    stream ends with `[DONE]`. The cookie, the query, the registry, the clock, the score id, the
    `get_token` reply and the upstream response are inputs. */
module ScoreRoute {
  import opened Wrappers
  import opened Json
  import Strings
  import Seqs
  import Framing
  import Relay
  import TokenCache
  import MarkdownTable
  import ScoreSummary
  import KeywordScore
  import ChatRoute
  import DevAuth
  import opened Downstream
  import opened Records

  /** The inputs of one request. `convId` is `searchParams.get('convId')`, `None` when absent. */
  datatype ScoreCall = ScoreCall(
    cookie: Option<string>,
    convId: Option<string>,
    registry: ChatRoute.RegistryLoad,
    now: int,
    scoreId: string,
    tokenReply: TokenCache.TokenReply,
    upstream: ChatRoute.Upstream)

  /** What the route reads and writes: the conversations, the score list and the token cache. */
  datatype World = World(conversations: seq<Conversation>, scores: seq<ScoreRecord>, cache: TokenCache.CacheState)

  /** A JSON error with its status, or the event stream together with the body posted upstream
      (`None` when the route never called upstream). */
  datatype Response = Refused(status: int, error: string) | Streamed(events: seq<Out>, sent: Option<Json>)

  function Sid(call: ScoreCall): Option<string> {
    DevAuth.Sid(call.cookie)
  }

  /** The checks before the stream starts, in the order the route makes them. */
  function Refusal(w: World, call: ScoreCall): Option<(int, string)> {
    if Sid(call).None? then Some((401, "未登录"))
    else if call.convId.None? || call.convId.value == "" then Some((400, "缺少 convId"))
    else if OwnedIndex(w.conversations, Some(JStr(call.convId.value)), Sid(call).value) == -1 then
      Some((404, "会话不存在"))
    else None
  }

  /** `String(conv.agentId || registry.agents[0]?.id || '')`. */
  function AssistantId(c: Conversation, agents: seq<Json>): string {
    StringOrEmpty(Or(c.agentId, Prop(if |agents| > 0 then Some(agents[0]) else None, "id")))
  }

  /** The fixed instruction sent upstream: a single Markdown table with the columns
      项目 | 得分 | 扣分原因 | 改进建议 and a last row 总计（100分）. */
  const ScorePrompt: string :=
    "你是“问诊评分助手”。请基于【本次对话】对医生的问诊表现进行评分。" + "\n" +
    "要求：" + "\n" +
    "1) 只输出一个 Markdown 表格，不要输出任何额外文字（包括解释、结尾、注意事项）。" + "\n" +
    "2) 表格列名固定为：项目 | 得分 | 扣分原因 | 改进建议" + "\n" +
    "3) 得分必须填写数字（允许 0），不要留空。" + "\n" +
    "4) 项目中如果包含“（X分）”，请按该满分给分。最后一行必须是“**总计（100分）**”。" + "\n" +
    "5) 扣分原因/改进建议要具体、可执行、与对话内容相关。" + "\n" +
    "现在开始输出表格："

  /** The body posted to `/stream`; a falsy `conversation_id || undefined` is left out. */
  function UpstreamBody(assistantId: string, c: Conversation): Json {
    JObj(map["assistant_id" := JStr(assistantId), "prompt" := JStr(ScorePrompt)]
         + Downstream.Defined("conversation_id", if Truthy(c.agentConversationId) then c.agentConversationId else None))
  }

  /** The relay loop's final state over the upstream body, started after the score `meta` event. */
  function Relayed(parse: string -> Option<Json>, c: Conversation, convId: string, scoreId: string,
                   chunks: seq<string>): Relay.RelayState {
    Relay.Run(Relay.ScoreVariant,
              Relay.Start(c.agentConversationId, c.agentLastHistoryId, [MetaScore(convId, scoreId)]),
              Framing.FramedEvents(Framing.LineFn(parse, Framing.Drop), Strings.Concat(chunks)))
  }

  /** What the loop leaves in the conversation: the two upstream ids, and `updatedAt` when the
      conversation id changed. */
  function Synced(c: Conversation, s: Relay.RelayState, now: int): Conversation {
    c.(agentConversationId := s.conversationId, agentLastHistoryId := s.historyId,
       updatedAt := if s.changes > 0 then now else c.updatedAt)
  }

  /** The `'agent-md'` record: the table parsed from the final text, its summary, and the summary's
      total as the score. */
  function AgentRecord(sid: string, convId: string, scoreId: string, now: int, finalText: string): ScoreRecord {
    var table := MarkdownTable.ParseTable(finalText);
    var summary := ScoreSummary.Summarize(table);
    AgentScore(scoreId, sid, convId, now, summary.totalScore, finalText, Report(table.headers, table.rows, summary))
  }

  /** Which record the request appends: the keyword fallback, or the agent's report of the final
      text. */
  datatype Kept = KeywordFallback | AgentReport(finalText: string)

  function RecordFor(kept: Kept, c: Conversation, sid: string, convId: string, call: ScoreCall): ScoreRecord {
    match kept
    case KeywordFallback => KeywordScore.FallbackRecord(c, sid, convId, call.scoreId, call.now)
    case AgentReport(t) => AgentRecord(sid, convId, call.scoreId, call.now, t)
  }

  /** The tail the `catch` writes after its error event. */
  function Fallen(scoreId: string): seq<Out> {
    [DoneScore(scoreId, "keyword-mock"), Sentinel]
  }

  /** The stream for an owned conversation: the new conversation, the new cache, the events, the
      record kept and the upstream body. */
  function Scored(parse: string -> Option<Json>, c: Conversation, convId: string,
                  cache: TokenCache.CacheState, call: ScoreCall)
    : (Conversation, TokenCache.CacheState, seq<Out>, Kept, Option<Json>)
  {
    match call.registry
    case LoadFailed(_) => (c, cache, [MetaScore(convId, call.scoreId)] + Fallen(call.scoreId), KeywordFallback, None)
    case Loaded(agents) => Attempt(parse, c, convId, cache, call, AssistantId(c, agents))
  }

  /** With a registry: the assistant id, then the token, then the upstream call. */
  function Attempt(parse: string -> Option<Json>, c: Conversation, convId: string,
                   cache: TokenCache.CacheState, call: ScoreCall, assistantId: string)
    : (Conversation, TokenCache.CacheState, seq<Out>, Kept, Option<Json>)
  {
    var meta := MetaScore(convId, call.scoreId);
    if assistantId == "" then
      (c, cache, [meta, ErrorOut("missing assistant id")] + Fallen(call.scoreId), KeywordFallback, None)
    else
      var step := TokenCache.RelayTokenStep(cache, call.now, call.tokenReply);
      if step.1.Failed? then
        (c, step.0, [meta, ErrorOut(ChatRoute.Message0(step.1.message))] + Fallen(call.scoreId), KeywordFallback, None)
      else
        var out := Contacted(parse, c, convId, call);
        (out.0, step.0, out.1, out.2, Some(UpstreamBody(assistantId, c)))
  }

  /** Once the request went upstream: the conversation, the events and the record kept. */
  function Contacted(parse: string -> Option<Json>, c: Conversation, convId: string, call: ScoreCall)
    : (Conversation, seq<Out>, Kept)
  {
    if !call.upstream.ok || !call.upstream.hasBody then
      (c, [MetaScore(convId, call.scoreId), ErrorOut("upstream HTTP " + Strings.IntToString(call.upstream.status))]
          + Fallen(call.scoreId), KeywordFallback)
    else
      var s := Relayed(parse, c, convId, call.scoreId, call.upstream.chunks);
      if s.ending.Failed? then (Synced(c, s, call.now), s.out + Fallen(call.scoreId), KeywordFallback)
      else (Synced(c, s, call.now), s.out + [DoneScore(call.scoreId, "agent-md"), Sentinel], AgentReport(s.finalText))
  }

  /** One request: the new world and the response. */
  function Handle(parse: string -> Option<Json>, w: World, call: ScoreCall): (World, Response) {
    match Refusal(w, call)
    case Some(e) => (w, Refused(e.0, e.1))
    case None =>
      var sid := Sid(call).value;
      var convId := call.convId.value;
      var i := OwnedIndex(w.conversations, Some(JStr(convId)), sid);
      var out := Scored(parse, w.conversations[i], convId, w.cache, call);
      (World(w.conversations[i := out.0], w.scores + [RecordFor(out.3, w.conversations[i], sid, convId, call)], out.1),
       Streamed(out.2, out.4))
  }

  /** `Handle` on a refused request. */
  lemma HandleRefused(parse: string -> Option<Json>, w: World, call: ScoreCall)
    requires Refusal(w, call).Some?
    ensures Handle(parse, w, call) == (w, Refused(Refusal(w, call).value.0, Refusal(w, call).value.1))
  {
  }

  // ----- what a request guarantees -----

  /** `Handle` on a request that passes the checks, spelled out once for the lemmas below. */
  lemma HandleAccepted(parse: string -> Option<Json>, w: World, call: ScoreCall)
    requires Refusal(w, call).None?
    ensures Sid(call).Some? && call.convId.Some?
    ensures var i := OwnedIndex(w.conversations, Some(JStr(call.convId.value)), Sid(call).value);
            && 0 <= i < |w.conversations|
            && var out := Scored(parse, w.conversations[i], call.convId.value, w.cache, call);
            Handle(parse, w, call)
            == (World(w.conversations[i := out.0],
                      w.scores + [RecordFor(out.3, w.conversations[i], Sid(call).value, call.convId.value, call)], out.1),
                Streamed(out.2, out.4))
  {
  }


  /** A refused request changes nothing, and the refusals come in the route's order. */
  lemma RefusalsChangeNothing(parse: string -> Option<Json>, w: World, call: ScoreCall)
    ensures Handle(parse, w, call).1.Refused? ==> Handle(parse, w, call).0 == w
    ensures Sid(call).None? ==> Handle(parse, w, call).1 == Refused(401, "未登录")
    ensures Sid(call).Some? && (call.convId.None? || call.convId == Some("")) ==>
              Handle(parse, w, call).1 == Refused(400, "缺少 convId")
    ensures Handle(parse, w, call).1.Streamed? <==>
              Sid(call).Some? && call.convId.Some? && call.convId.value != ""
              && OwnedIndex(w.conversations, Some(JStr(call.convId.value)), Sid(call).value) != -1
  {
  }

  /** A streamed request appends exactly one record, for the caller, the conversation and the
      score named in the `meta` event; nothing else in the score list changes. */
  lemma OneRecordAppended(parse: string -> Option<Json>, w: World, call: ScoreCall)
    ensures var h := Handle(parse, w, call);
            h.1.Streamed? ==>
              && |h.0.scores| == |w.scores| + 1 && h.0.scores[..|w.scores|] == w.scores
              && var r := h.0.scores[|w.scores|];
              r.id == call.scoreId && r.userId == Sid(call).value && r.convId == call.convId.value && r.ts == call.now
              && |h.1.events| > 0 && h.1.events[0] == MetaScore(call.convId.value, call.scoreId)
  {
    if Refusal(w, call).None? {
      var sid := Sid(call).value;
      var convId := call.convId.value;
      var i := OwnedIndex(w.conversations, Some(JStr(convId)), sid);
      var out := Scored(parse, w.conversations[i], convId, w.cache, call);
      HandleAccepted(parse, w, call);
      ScoredEvents(parse, w.conversations[i], convId, w.cache, call);
      RecordContents(out.3, w.conversations[i], sid, convId, call);
      Seqs.AppendOne(w.scores, RecordFor(out.3, w.conversations[i], sid, convId, call));
    } else {
      HandleRefused(parse, w, call);
    }
  }

  /** The stream is well formed: the score `meta` event first, `[DONE]` only at the end, right
      after a `done` event naming the mode of the record kept; an error event, if any, is the only
      one and comes right before that `done`. */
  predicate WellFormed(events: seq<Out>, convId: string, scoreId: string, kept: Kept) {
    && |events| >= 3
    && events[0] == MetaScore(convId, scoreId)
    && events[|events| - 1] == Sentinel
    && events[|events| - 2] == DoneScore(scoreId, if kept.AgentReport? then "agent-md" else "keyword-mock")
    && (forall k :: 0 <= k < |events| - 1 ==> events[k] != Sentinel)
    && (forall k :: 0 <= k < |events| && events[k].ErrorOut? ==> k == |events| - 3)
  }

  lemma RelayedInv(parse: string -> Option<Json>, c: Conversation, convId: string, scoreId: string, chunks: seq<string>)
    ensures var s := Relayed(parse, c, convId, scoreId, chunks);
            Relay.Inv(s) && |s.out| >= 1 && s.out[0] == MetaScore(convId, scoreId)
  {
    var meta := MetaScore(convId, scoreId);
    var s0 := Relay.Start(c.agentConversationId, c.agentLastHistoryId, [meta]);
    var evs := Framing.FramedEvents(Framing.LineFn(parse, Framing.Drop), Strings.Concat(chunks));
    Relay.StartInv(c.agentConversationId, c.agentLastHistoryId, [meta]);
    Relay.RunInv(Relay.ScoreVariant, s0, evs);
    Relay.RunKeepsFirst(Relay.ScoreVariant, s0, evs);
  }

  /** Every outcome of the stream is well formed, and an error event is sent exactly when the
      route fell back to the keyword score after the registry loaded. */
  lemma ScoredEvents(parse: string -> Option<Json>, c: Conversation, convId: string,
                     cache: TokenCache.CacheState, call: ScoreCall)
    ensures var out := Scored(parse, c, convId, cache, call);
            && WellFormed(out.2, convId, call.scoreId, out.3)
            && ((exists k :: 0 <= k < |out.2| && out.2[k].ErrorOut?) <==> call.registry.Loaded? && out.3.KeywordFallback?)
  {
    var out := Scored(parse, c, convId, cache, call);
    if call.registry.Loaded? && AssistantId(c, call.registry.agents) != "" {
      var step := TokenCache.RelayTokenStep(cache, call.now, call.tokenReply);
      if !step.1.Failed? && call.upstream.ok && call.upstream.hasBody {
        ContactedEvents(parse, c, convId, call);
      } else {
        assert out.2[1].ErrorOut?;
      }
    } else if call.registry.Loaded? {
      assert out.2[1].ErrorOut?;
    }
  }

  lemma ContactedEvents(parse: string -> Option<Json>, c: Conversation, convId: string, call: ScoreCall)
    requires call.upstream.ok && call.upstream.hasBody
    ensures var out := Contacted(parse, c, convId, call);
            && WellFormed(out.1, convId, call.scoreId, out.2)
            && ((exists k :: 0 <= k < |out.1| && out.1[k].ErrorOut?) <==> out.2.KeywordFallback?)
  {
    var out := Contacted(parse, c, convId, call);
    RelayedInv(parse, c, convId, call.scoreId, call.upstream.chunks);
    var s := Relayed(parse, c, convId, call.scoreId, call.upstream.chunks);
    if s.ending.Failed? {
      assert out.1[|s.out| - 1].ErrorOut?;
    }
  }

  /** Without a registry the keyword score is recorded at once: no token, no upstream call, and
      the conversation and the cache are left as they were. */
  lemma RegistryFailureStaysLocal(parse: string -> Option<Json>, w: World, call: ScoreCall)
    requires call.registry.LoadFailed? && Refusal(w, call).None?
    ensures var c := w.conversations[OwnedIndex(w.conversations, Some(JStr(call.convId.value)), Sid(call).value)];
            Handle(parse, w, call)
            == (World(w.conversations,
                      w.scores + [KeywordScore.FallbackRecord(c, Sid(call).value, call.convId.value, call.scoreId, call.now)],
                      w.cache),
                Streamed([MetaScore(call.convId.value, call.scoreId), DoneScore(call.scoreId, "keyword-mock"), Sentinel], None))
  {
    var sid := Sid(call).value;
    var convId := call.convId.value;
    var i := OwnedIndex(w.conversations, Some(JStr(convId)), sid);
    var c := w.conversations[i];
    HandleAccepted(parse, w, call);
    FallbackWithoutRegistry(parse, c, convId, w.cache, call);
    assert RecordFor(KeywordFallback, c, sid, convId, call) == KeywordScore.FallbackRecord(c, sid, convId, call.scoreId, call.now);
    Seqs.UpdateSame(w.conversations, i);
  }

  lemma FallbackWithoutRegistry(parse: string -> Option<Json>, c: Conversation, convId: string,
                                cache: TokenCache.CacheState, call: ScoreCall)
    requires call.registry.LoadFailed?
    ensures Scored(parse, c, convId, cache, call)
            == (c, cache, [MetaScore(convId, call.scoreId), DoneScore(call.scoreId, "keyword-mock"), Sentinel], KeywordFallback, None)
  {
    assert [MetaScore(convId, call.scoreId)] + Fallen(call.scoreId)
        == [MetaScore(convId, call.scoreId), DoneScore(call.scoreId, "keyword-mock"), Sentinel];
  }

  /** The agent's report is kept only when the relay stopped on `finish` or at the end of the
      reply, never after an error, and it is the relay's final text. */
  lemma AgentReportKept(parse: string -> Option<Json>, c: Conversation, convId: string,
                        cache: TokenCache.CacheState, call: ScoreCall)
    ensures var out := Scored(parse, c, convId, cache, call);
            out.3.AgentReport? ==>
              && call.registry.Loaded? && call.upstream.ok && call.upstream.hasBody && out.4.Some?
              && var s := Relayed(parse, c, convId, call.scoreId, call.upstream.chunks);
              !s.ending.Failed? && out.3.finalText == s.finalText
  {
  }

  /** The agent's record keeps the report's Markdown, the table parsed from it, and the table's
      summarised total as its score; the fallback is the keyword-coverage score of the
      conversation's transcript, between 0 and 100, out of 8 keywords. */
  lemma RecordContents(kept: Kept, c: Conversation, sid: string, convId: string, call: ScoreCall)
    ensures var r := RecordFor(kept, c, sid, convId, call);
            && r.id == call.scoreId && r.userId == sid && r.convId == convId && r.ts == call.now
            && (kept.AgentReport? ==>
                  && r.AgentScore? && r.reportMd == kept.finalText
                  && r.report.headers == MarkdownTable.ParseTable(r.reportMd).headers
                  && r.report.rows == MarkdownTable.ParseTable(r.reportMd).rows
                  && r.report.summary == ScoreSummary.Summarize(MarkdownTable.ParseTable(r.reportMd))
                  && r.totalScore == r.report.summary.totalScore)
            && (kept.KeywordFallback? ==>
                  && r.KeywordScore? && r.mode == Some("keyword-mock")
                  && r.covered == KeywordScore.Covered(KeywordScore.Transcript(c.messages)) <= 8
                  && r.total == 8 && 0 <= r.score <= 100)
  {
  }

  /** The stream changes the conversation only in its two upstream ids and, when the conversation
      id changed, `updatedAt`; its messages are untouched. */
  lemma ConversationKeepsMessages(parse: string -> Option<Json>, c: Conversation, convId: string,
                                  cache: TokenCache.CacheState, call: ScoreCall)
    ensures var c1 := Scored(parse, c, convId, cache, call).0;
            && c1 == c.(agentConversationId := c1.agentConversationId, agentLastHistoryId := c1.agentLastHistoryId,
                        updatedAt := c1.updatedAt)
            && (c1.updatedAt == c.updatedAt || c1.updatedAt == call.now)
  {
  }

  // ----- the handler -----

  /** The route handler. It updates the store and the route's token cache in place. */
  method Get(store: Store, cache: TokenCache.TokenCache, parse: string -> Option<Json>, call: ScoreCall)
    returns (resp: Response)
    modifies store, cache
    ensures (World(store.conversations, store.scores, cache.State()), resp)
            == Handle(parse, old(World(store.conversations, store.scores, cache.State())), call)
    ensures store.sessions == old(store.sessions)
  {
    ghost var w := World(store.conversations, store.scores, cache.State());
    var sid := DevAuth.Sid(call.cookie);
    if sid.None? {
      HandleRefused(parse, w, call);
      return Refused(401, "未登录");
    }
    if call.convId.None? || call.convId.value == "" {
      HandleRefused(parse, w, call);
      return Refused(400, "缺少 convId");
    }
    var convId := call.convId.value;
    var i := OwnedIndex(store.conversations, Some(JStr(convId)), sid.value);
    if i == -1 {
      HandleRefused(parse, w, call);
      return Refused(404, "会话不存在");
    }
    resp := Accept(store, cache, parse, i, sid.value, convId, call);
    HandleAccepted(parse, w, call);
  }

  /** A request that passed the checks: the stream, then the record of the branch taken (the
      `catch`'s fallback, or the agent's report). */
  method Accept(store: Store, cache: TokenCache.TokenCache, parse: string -> Option<Json>, i: nat, sid: string,
                convId: string, call: ScoreCall)
    returns (resp: Response)
    requires i < |store.conversations|
    modifies store, cache
    ensures var c := old(store.conversations[i]);
            var out := Scored(parse, c, convId, old(cache.State()), call);
            && store.conversations == old(store.conversations)[i := out.0]
            && store.scores == old(store.scores) + [RecordFor(out.3, c, sid, convId, call)]
            && cache.State() == out.1 && resp == Streamed(out.2, out.4)
    ensures store.sessions == old(store.sessions)
  {
    var c := store.conversations[i];
    var kept;
    resp, kept := Serve(store, cache, parse, i, convId, call);
    store.PushScore(RecordFor(kept, c, sid, convId, call));
  }

  /** The stream, from the `meta` event to the upstream call, with the `catch` as early returns. */
  method Serve(store: Store, cache: TokenCache.TokenCache, parse: string -> Option<Json>, i: nat,
               convId: string, call: ScoreCall)
    returns (resp: Response, kept: Kept)
    requires i < |store.conversations|
    modifies store, cache
    ensures var out := Scored(parse, old(store.conversations[i]), convId, old(cache.State()), call);
            && store.conversations == old(store.conversations)[i := out.0]
            && cache.State() == out.1 && resp == Streamed(out.2, out.4) && kept == out.3
    ensures store.sessions == old(store.sessions) && store.scores == old(store.scores)
  {
    var c := store.conversations[i];
    var meta := MetaScore(convId, call.scoreId);
    if call.registry.LoadFailed? {
      return Streamed([meta] + Fallen(call.scoreId), None), KeywordFallback;
    }
    var assistantId := AssistantId(c, call.registry.agents);
    if assistantId == "" {
      return Streamed([meta, ErrorOut("missing assistant id")] + Fallen(call.scoreId), None), KeywordFallback;
    }
    var outcome := cache.GetAccessToken(call.now, call.tokenReply);
    if outcome.Failed? {
      return Streamed([meta, ErrorOut(ChatRoute.Message0(outcome.message))] + Fallen(call.scoreId), None), KeywordFallback;
    }
    var events;
    events, kept := Exchange(store, parse, i, convId, call);
    resp := Streamed(events, Some(UpstreamBody(assistantId, c)));
  }

  /** The upstream response and the relay loop over it. */
  method Exchange(store: Store, parse: string -> Option<Json>, i: nat, convId: string, call: ScoreCall)
    returns (events: seq<Out>, kept: Kept)
    requires i < |store.conversations|
    modifies store
    ensures var out := Contacted(parse, old(store.conversations[i]), convId, call);
            store.conversations == old(store.conversations)[i := out.0] && events == out.1 && kept == out.2
    ensures store.sessions == old(store.sessions) && store.scores == old(store.scores)
  {
    var c := store.conversations[i];
    if !call.upstream.ok || !call.upstream.hasBody {
      var meta := MetaScore(convId, call.scoreId);
      return [meta, ErrorOut("upstream HTTP " + Strings.IntToString(call.upstream.status))] + Fallen(call.scoreId),
             KeywordFallback;
    }
    var s := RunLoop(parse, c, convId, call.scoreId, call.upstream.chunks);
    store.conversations := store.conversations[i := Synced(c, s, call.now)];
    if s.ending.Failed? {
      // The loop already enqueued the error event the `catch` writes.
      return s.out + Fallen(call.scoreId), KeywordFallback;
    }
    events, kept := s.out + [DoneScore(call.scoreId, "agent-md"), Sentinel], AgentReport(s.finalText);
  }

  /** The read loop over the upstream body, started after the score `meta` event. */
  method RunLoop(parse: string -> Option<Json>, c: Conversation, convId: string, scoreId: string, chunks: seq<string>)
    returns (s: Relay.RelayState)
    ensures s == Relayed(parse, c, convId, scoreId, chunks)
  {
    var loop := new Relay.RelayLoop(Relay.ScoreVariant, parse, c.agentConversationId, c.agentLastHistoryId,
                                    [MetaScore(convId, scoreId)]);
    loop.Pump(chunks);
    s := loop.State();
  }
}
