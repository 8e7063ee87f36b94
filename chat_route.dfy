/** `POST /api/qingyan/stream`: the chat relay. The request is checked (session, message,
    conversation, agent registry), the conversation receives the user's message and an empty
    assistant message, the session index is touched, and the reply is streamed: a `meta` event
    naming the agent, then either one error and `[DONE]` (no token, or a failed upstream response)
    or the relay loop over the upstream events followed by `[DONE]`. Whatever text the loop
    reconciled is written into the assistant message. The cookie, the body, the registry, the
    clock, the two message ids, the `get_token` reply and the upstream response are inputs. */
module ChatRoute {
  import opened Wrappers
  import opened Json
  import Strings
  import Seqs
  import Framing
  import Relay
  import TokenCache
  import DevAuth
  import opened Downstream
  import opened Records

  /** The body fields the route reads: `convId ?? conversationId ?? conversation_id`,
      `init === true`, `message ?? prompt` when it is a string, `agentName`, `assistant_id` and
      `conversation_id`. */
  datatype ChatRequest = ChatRequest(
    convId: Option<Json>,
    isInit: bool,
    message: string,
    agentName: Option<Json>,
    assistantId: Option<Json>,
    conversationId: Option<Json>)

  function ReadRequest(body: Json): ChatRequest {
    var b := Some(body);
    var raw := Coalesce(Prop(b, "message"), Prop(b, "prompt"));
    ChatRequest(Coalesce(Coalesce(Prop(b, "convId"), Prop(b, "conversationId")), Prop(b, "conversation_id")),
                Prop(b, "init") == Some(JBool(true)),
                if raw.Some? && raw.value.JStr? then raw.value.s else "",
                Prop(b, "agentName"), Prop(b, "assistant_id"), Prop(b, "conversation_id"))
  }

  /** `effectiveMessage`: the greeting request sends `'你好'` when its message is blank. */
  function EffectiveMessage(r: ChatRequest): (m: string)
    ensures r.isInit ==> Strings.Trim(m) != ""
    ensures !r.isInit ==> m == r.message
    ensures r.isInit && Strings.Trim(r.message) != "" ==> m == r.message
  {
    if r.isInit then (if Strings.Trim(r.message) != "" then r.message else Greeting()) else r.message
  }

  function Greeting(): (g: string)
    ensures Strings.Trim(g) == g && g != ""
  {
    var g := "你好";
    assert !Strings.IsJsSpace(g[0]) && !Strings.IsJsSpace(g[1]);
    Strings.TrimOfTrimmed(g);
    g
  }

  /** `loadAgentRegistry()`: the agent list, or the message of the error it threw. */
  datatype RegistryLoad = Loaded(agents: seq<Json>) | LoadFailed(message: string)

  /** `agents.find(a => a.<key> === v)`, as an index. */
  function AgentWith(agents: seq<Json>, key: string, v: Option<Json>): (i: int)
    ensures i == -1 || (0 <= i < |agents| && StrictEquals(Prop(Some(agents[i]), key), v))
  {
    Seqs.FirstIndex(|agents|, 0, (k: nat) => k < |agents| && StrictEquals(Prop(Some(agents[k]), key), v))
  }

  /** `{ id: String(id), name }`: the agent named by an id the registry does not list. */
  function Unlisted(id: Option<Json>, name: Option<Json>): Json {
    JObj(map["id" := JStr(ValueString(id))] + Downstream.Defined("name", name))
  }

  /** `pickAgent(registry, agentName)`: the agent with that name, else the first one. */
  function PickAgent(agents: seq<Json>, name: Option<Json>): Json
    requires |agents| > 0
  {
    var i := if Truthy(name) then AgentWith(agents, "name", name) else -1;
    if i != -1 then agents[i] else agents[0]
  }

  /** The agent selection, in priority order: the request's `assistant_id`, the conversation's
      `agentId`, then the agent named by the conversation or the request. */
  function SelectAgent(agents: seq<Json>, conv: Conversation, r: ChatRequest): Json
    requires |agents| > 0
  {
    if Truthy(r.assistantId) then
      var i := AgentWith(agents, "id", r.assistantId);
      if i != -1 then agents[i]
      else Unlisted(r.assistantId, Or(Or(r.agentName, conv.agentName), Some(JStr("assistant"))))
    else if Truthy(conv.agentId) then
      var i := AgentWith(agents, "id", conv.agentId);
      if i != -1 then agents[i]
      else Unlisted(conv.agentId, Or(Or(conv.agentName, r.agentName), Some(JStr("assistant"))))
    else PickAgent(agents, Or(conv.agentName, r.agentName))
  }

  /** The id wins in priority order: the agent keeps the request's `assistant_id`, else the
      conversation's `agentId` (as a string when the registry does not list it); with neither, the
      agent comes from the registry. */
  lemma AgentPriority(agents: seq<Json>, conv: Conversation, r: ChatRequest)
    requires |agents| > 0
    ensures var a := SelectAgent(agents, conv, r);
            var id := Prop(Some(a), "id");
            && (Truthy(r.assistantId) ==> ValueString(id) == ValueString(r.assistantId))
            && (!Truthy(r.assistantId) && Truthy(conv.agentId) ==> ValueString(id) == ValueString(conv.agentId))
            && (!Truthy(r.assistantId) && !Truthy(conv.agentId) ==> a in agents)
  {
    var a := SelectAgent(agents, conv, r);
    if Truthy(r.assistantId) {
      var i := AgentWith(agents, "id", r.assistantId);
      if i != -1 {
        StrictEqualsEqual(Prop(Some(agents[i]), "id"), r.assistantId);
      }
    } else if Truthy(conv.agentId) {
      var i := AgentWith(agents, "id", conv.agentId);
      if i != -1 {
        StrictEqualsEqual(Prop(Some(agents[i]), "id"), conv.agentId);
      }
    }
  }

  /** With no id given anywhere, the agent is the first with the wanted name, or the first one. */
  lemma PickedByName(agents: seq<Json>, conv: Conversation, r: ChatRequest)
    requires |agents| > 0 && !Truthy(r.assistantId) && !Truthy(conv.agentId)
    ensures var a := SelectAgent(agents, conv, r);
            var name := Or(conv.agentName, r.agentName);
            (exists k :: 0 <= k < |agents| && Truthy(name) && StrictEquals(Prop(Some(agents[k]), "name"), name))
            ==> StrictEquals(Prop(Some(a), "name"), name)
    ensures var a := SelectAgent(agents, conv, r);
            var name := Or(conv.agentName, r.agentName);
            (forall k :: 0 <= k < |agents| ==> !(Truthy(name) && StrictEquals(Prop(Some(agents[k]), "name"), name)))
            ==> a == agents[0]
  {
    var name := Or(conv.agentName, r.agentName);
    var ok := (k: nat) => k < |agents| && StrictEquals(Prop(Some(agents[k]), "name"), name);
    Seqs.FirstIndexLeast(|agents|, 0, ok);
    if Truthy(name) && AgentWith(agents, "name", name) == -1 {
      forall k | 0 <= k < |agents|
        ensures !StrictEquals(Prop(Some(agents[k]), "name"), name)
      {
        assert !ok(k);
      }
    }
  }

  // ----- one request -----

  /** What the route reads and writes: the conversations, the session index and the token cache. */
  datatype World = World(conversations: seq<Conversation>, sessions: seq<Json>, cache: TokenCache.CacheState)

  /** The upstream `/stream` response: `ok`, `status`, whether it has a body, and the body's
      chunks as the reader delivers them. */
  datatype Upstream = Upstream(ok: bool, status: int, hasBody: bool, chunks: seq<string>)

  /** The inputs of one request. */
  datatype ChatCall = ChatCall(
    cookie: Option<string>,
    body: Json,
    registry: RegistryLoad,
    now: int,
    userMsgId: string,
    aiMsgId: string,
    tokenReply: TokenCache.TokenReply,
    upstream: Upstream)

  /** A JSON error with its status, or the event stream together with the body posted upstream
      (`None` when the route never called upstream). */
  datatype Response = Refused(status: int, error: string) | Streamed(events: seq<Out>, sent: Option<Json>)

  /** `loadAgentRegistry` either throws or returns a non-empty agent list. */
  predicate ValidCall(call: ChatCall) {
    call.registry.Loaded? ==> |call.registry.agents| > 0
  }

  /** The checks before anything is written, in the order the route makes them. */
  function Refusal(w: World, call: ChatCall): Option<(int, string)> {
    var r := ReadRequest(call.body);
    var sid := DevAuth.Sid(call.cookie);
    var m := EffectiveMessage(r);
    if sid.None? then Some((401, "未登录"))
    else if m == "" || Strings.Trim(m) == "" then Some((400, "消息为空"))
    else if OwnedIndex(w.conversations, r.convId, sid.value) == -1 then Some((404, "会话不存在"))
    else if call.registry.LoadFailed? then
      Some((500, if call.registry.message != "" then call.registry.message else "agent registry load failed"))
    else None
  }

  /** The conversation once the route recorded the request: the `conversation_id` override, the
      user's message (not for the greeting request), the empty assistant message, the agent and
      `updatedAt`. */
  function Opened(c: Conversation, r: ChatRequest, agent: Json, call: ChatCall): Conversation {
    var c1 := if Truthy(r.conversationId) then c.(agentConversationId := Some(JStr(ValueString(r.conversationId)))) else c;
    var user := if r.isInit then [] else [Message(call.userMsgId, "user", EffectiveMessage(r), call.now, None)];
    var ai := Message(call.aiMsgId, "ai", "", call.now,
                      Some(Reply(Prop(Some(agent), "id"), Prop(Some(agent), "name"), r.isInit)));
    c1.(messages := c1.messages + user + [ai], agentId := Prop(Some(agent), "id"),
        agentName := Prop(Some(agent), "name"), updatedAt := call.now)
  }

  /** The session entry the route touches for the conversation. */
  function Touched(c: Conversation, agent: Json, now: int): map<string, Json> {
    Touch(c.id, Prop(Some(agent), "name"), Prop(Some(agent), "id"), c.createdAt, now)
  }

  /** The body posted to `/stream`; `JSON.stringify` leaves out an undefined id and a falsy
      `conversation_id || undefined`. */
  function UpstreamBody(agent: Json, c: Conversation, prompt: string): Json {
    JObj(Downstream.Defined("assistant_id", Prop(Some(agent), "id"))
         + Downstream.Defined("conversation_id", if Truthy(c.agentConversationId) then c.agentConversationId else None)
         + map["prompt" := JStr(prompt)])
  }

  /** The relay loop's final state over the upstream body, started after the agent `meta` event. */
  function Relayed(parse: string -> Option<Json>, c: Conversation, agent: Json, chunks: seq<string>): Relay.RelayState {
    Relay.Run(Relay.ChatVariant,
              Relay.Start(c.agentConversationId, c.agentLastHistoryId,
                          [MetaAgent(Prop(Some(agent), "id"), Prop(Some(agent), "name"))]),
              Framing.FramedEvents(Framing.LineFn(parse, Framing.Drop), Strings.Concat(chunks)))
  }

  /** What the loop leaves in the conversation: the two upstream ids and the assistant text. */
  function Settled(c: Conversation, s: Relay.RelayState, aiMsgId: string): Conversation {
    c.(agentConversationId := s.conversationId, agentLastHistoryId := s.historyId,
       messages := SetText(c.messages, aiMsgId, s.finalText))
  }

  /** `e?.message || 'error'`. */
  function Message0(m: string): string {
    if m != "" then m else "error"
  }

  /** The streamed part, from the opened conversation: the new conversation, the new cache, the
      events and the upstream body. */
  function Stream(parse: string -> Option<Json>, c: Conversation, agent: Json, cache: TokenCache.CacheState,
                  call: ChatCall, prompt: string): (Conversation, TokenCache.CacheState, seq<Out>, Option<Json>)
  {
    var meta := MetaAgent(Prop(Some(agent), "id"), Prop(Some(agent), "name"));
    var step := TokenCache.RelayTokenStep(cache, call.now, call.tokenReply);
    if step.1.Failed? then (c, step.0, [meta, ErrorOut(Message0(step.1.message)), Sentinel], None)
    else
      var sent := UpstreamBody(agent, c, prompt);
      if !call.upstream.ok || !call.upstream.hasBody then
        (c, step.0, [meta, ErrorOut("upstream HTTP " + Strings.IntToString(call.upstream.status)), Sentinel], Some(sent))
      else
        var s := Relayed(parse, c, agent, call.upstream.chunks);
        (Settled(c, s, call.aiMsgId), step.0, s.out + [Sentinel], Some(sent))
  }

  /** One request: the new world and the response. */
  function Handle(parse: string -> Option<Json>, w: World, call: ChatCall): (World, Response)
    requires ValidCall(call)
  {
    match Refusal(w, call)
    case Some(e) => (w, Refused(e.0, e.1))
    case None =>
      var r := ReadRequest(call.body);
      var i := OwnedIndex(w.conversations, r.convId, DevAuth.Sid(call.cookie).value);
      var agent := SelectAgent(call.registry.agents, w.conversations[i], r);
      var c1 := Opened(w.conversations[i], r, agent, call);
      var sessions := Upsert(w.sessions, Some(JStr(c1.id)), Touched(c1, agent, call.now));
      var out := Stream(parse, c1, agent, w.cache, call, EffectiveMessage(r));
      (World(w.conversations[i := out.0], sessions, out.1), Streamed(out.2, out.3))
  }

  // ----- what a request guarantees -----

  /** A refused request changes nothing, and the refusals come in the route's order. */
  lemma RefusalsChangeNothing(parse: string -> Option<Json>, w: World, call: ChatCall)
    requires ValidCall(call)
    ensures Handle(parse, w, call).1.Refused? ==> Handle(parse, w, call).0 == w
    ensures DevAuth.Sid(call.cookie).None? ==> Handle(parse, w, call).1 == Refused(401, "未登录")
    ensures Handle(parse, w, call).1.Streamed? ==>
              DevAuth.Sid(call.cookie).Some? && call.registry.Loaded?
              && Strings.Trim(EffectiveMessage(ReadRequest(call.body))) != ""
              && OwnedIndex(w.conversations, ReadRequest(call.body).convId, DevAuth.Sid(call.cookie).value) != -1
  {
  }

  /** The stream starts with the agent `meta` event and ends with exactly one `[DONE]`; an error
      event, if any, is the only one and comes right before `[DONE]`. */
  predicate WellFormed(events: seq<Out>) {
    && |events| >= 2
    && events[0].MetaAgent?
    && events[|events| - 1] == Sentinel
    && (forall k :: 0 <= k < |events| - 1 ==> events[k] != Sentinel)
    && (forall k :: 0 <= k < |events| && events[k].ErrorOut? ==> k == |events| - 2)
  }

  lemma RelayedInv(parse: string -> Option<Json>, c: Conversation, agent: Json, chunks: seq<string>)
    ensures var s := Relayed(parse, c, agent, chunks);
            Relay.Inv(s) && |s.out| >= 1 && s.out[0].MetaAgent?
  {
    var meta := MetaAgent(Prop(Some(agent), "id"), Prop(Some(agent), "name"));
    var s0 := Relay.Start(c.agentConversationId, c.agentLastHistoryId, [meta]);
    var evs := Framing.FramedEvents(Framing.LineFn(parse, Framing.Drop), Strings.Concat(chunks));
    Relay.StartInv(c.agentConversationId, c.agentLastHistoryId, [meta]);
    Relay.RunInv(Relay.ChatVariant, s0, evs);
    Relay.RunKeepsFirst(Relay.ChatVariant, s0, evs);
  }

  lemma StreamWellFormed(parse: string -> Option<Json>, c: Conversation, agent: Json, cache: TokenCache.CacheState,
                         call: ChatCall, prompt: string)
    ensures WellFormed(Stream(parse, c, agent, cache, call, prompt).2)
  {
    var meta := MetaAgent(Prop(Some(agent), "id"), Prop(Some(agent), "name"));
    var step := TokenCache.RelayTokenStep(cache, call.now, call.tokenReply);
    if step.1.Failed? {
      ErrorEventsWellFormed(meta, Message0(step.1.message));
    } else if !call.upstream.ok || !call.upstream.hasBody {
      ErrorEventsWellFormed(meta, "upstream HTTP " + Strings.IntToString(call.upstream.status));
    } else {
      var s := Relayed(parse, c, agent, call.upstream.chunks);
      RelayedInv(parse, c, agent, call.upstream.chunks);
      RelayedWellFormed(s);
    }
  }

  /** The metadata event, one error and the sentinel. */
  lemma ErrorEventsWellFormed(meta: Out, message: string)
    requires meta.MetaAgent?
    ensures WellFormed([meta, ErrorOut(message), Sentinel])
  {
  }

  /** The relayed events and the sentinel. */
  lemma RelayedWellFormed(s: Relay.RelayState)
    requires Relay.Inv(s) && |s.out| >= 1 && s.out[0].MetaAgent?
    ensures WellFormed(s.out + [Sentinel])
  {
  }

  /** Every streamed response is well formed. */
  lemma ResponseWellFormed(parse: string -> Option<Json>, w: World, call: ChatCall)
    requires ValidCall(call)
    ensures Handle(parse, w, call).1.Streamed? ==> WellFormed(Handle(parse, w, call).1.events)
  {
    if Refusal(w, call).None? {
      var r := ReadRequest(call.body);
      var i := OwnedIndex(w.conversations, r.convId, DevAuth.Sid(call.cookie).value);
      var agent := SelectAgent(call.registry.agents, w.conversations[i], r);
      var c1 := Opened(w.conversations[i], r, agent, call);
      StreamWellFormed(parse, c1, agent, w.cache, call, EffectiveMessage(r));
    }
  }

  /** Upstream is called only once a token was obtained, with the effective message as prompt. */
  lemma UpstreamNeedsToken(parse: string -> Option<Json>, c: Conversation, agent: Json, cache: TokenCache.CacheState,
                           call: ChatCall, prompt: string)
    ensures var out := Stream(parse, c, agent, cache, call, prompt);
            var step := TokenCache.RelayTokenStep(cache, call.now, call.tokenReply);
            (out.3.Some? <==> !step.1.Failed?)
            && (out.3.Some? ==> out.3.value.JObj? && out.3.value.fields["prompt"] == JStr(prompt))
            && (step.1.Failed? ==> out.2[1] == ErrorOut(Message0(step.1.message)) && out.0 == c)
  {
  }

  /** The conversation keeps its messages and gains the user's message (unless this is the
      greeting request) and then the assistant message, which ends up holding the relay's final
      text, or nothing when the stream failed before the loop. */
  lemma MessagesAppended(parse: string -> Option<Json>, c: Conversation, r: ChatRequest, agent: Json,
                         cache: TokenCache.CacheState, call: ChatCall)
    requires forall k :: 0 <= k < |c.messages| ==> c.messages[k].id != call.aiMsgId
    requires !r.isInit ==> call.userMsgId != call.aiMsgId
    ensures var c1 := Opened(c, r, agent, call);
            var out := Stream(parse, c1, agent, cache, call, EffectiveMessage(r));
            var user := if r.isInit then [] else [Message(call.userMsgId, "user", EffectiveMessage(r), call.now, None)];
            var text := if call.upstream.ok && call.upstream.hasBody && out.3.Some?
                        then Relayed(parse, c1, agent, call.upstream.chunks).finalText else "";
            out.0.messages == c.messages + user
                              + [Message(call.aiMsgId, "ai", text, call.now,
                                         Some(Reply(Prop(Some(agent), "id"), Prop(Some(agent), "name"), r.isInit)))]
  {
    var c1 := Opened(c, r, agent, call);
    var user := if r.isInit then [] else [Message(call.userMsgId, "user", EffectiveMessage(r), call.now, None)];
    var ai := Message(call.aiMsgId, "ai", "", call.now,
                      Some(Reply(Prop(Some(agent), "id"), Prop(Some(agent), "name"), r.isInit)));
    var before := c.messages + user;
    assert c1.messages == before + [ai];
    forall k | 0 <= k < |before|
      ensures before[k].id != ai.id
    {
      if k >= |c.messages| {
        assert before[k] == user[k - |c.messages|];
      }
    }
    var out := Stream(parse, c1, agent, cache, call, EffectiveMessage(r));
    if call.upstream.ok && call.upstream.hasBody && out.3.Some? {
      SetTextOfLast(before, ai, Relayed(parse, c1, agent, call.upstream.chunks).finalText);
    }
  }

  /** When every snapshot the loop reconciles extends the text so far or starts differently from
      it, the deltas the client receives concatenate to the text saved in the assistant message. */
  lemma DeltasAreSavedText(parse: string -> Option<Json>, c: Conversation, agent: Json, chunks: seq<string>)
    requires var meta := MetaAgent(Prop(Some(agent), "id"), Prop(Some(agent), "name"));
             Relay.CompatibleRun(Relay.ChatVariant, Relay.Start(c.agentConversationId, c.agentLastHistoryId, [meta]),
                                 Framing.FramedEvents(Framing.LineFn(parse, Framing.Drop), Strings.Concat(chunks)))
    ensures var s := Relayed(parse, c, agent, chunks);
            Relay.Deltas(s.out + [Sentinel]) == s.finalText
  {
    var meta := MetaAgent(Prop(Some(agent), "id"), Prop(Some(agent), "name"));
    var s0 := Relay.Start(c.agentConversationId, c.agentLastHistoryId, [meta]);
    var evs := Framing.FramedEvents(Framing.LineFn(parse, Framing.Drop), Strings.Concat(chunks));
    Relay.DeltasSnoc([], meta);
    assert [] + [meta] == [meta];
    Relay.CompatibleRunDeltas(Relay.ChatVariant, s0, evs);
    Relay.RunInv(Relay.ChatVariant, s0, evs) by { Relay.StartInv(c.agentConversationId, c.agentLastHistoryId, [meta]); }
    var s := Relay.Run(Relay.ChatVariant, s0, evs);
    Relay.DeltasSnoc(s.out, Sentinel);
  }

  // ----- the handler -----

  /** The route handler. It updates the store and the token cache in place, as the route does. */
  method Post(store: Store, cache: TokenCache.TokenCache, parse: string -> Option<Json>, call: ChatCall)
    returns (resp: Response)
    requires ValidCall(call)
    modifies store, cache
    ensures (World(store.conversations, store.sessions, cache.State()), resp)
            == Handle(parse, old(World(store.conversations, store.sessions, cache.State())), call)
    ensures store.scores == old(store.scores)
  {
    ghost var w := World(store.conversations, store.sessions, cache.State());
    var r := ReadRequest(call.body);
    var sid := DevAuth.Sid(call.cookie);
    if sid.None? {
      return Refused(401, "未登录");
    }
    var effective := EffectiveMessage(r);
    if effective == "" || Strings.Trim(effective) == "" {
      return Refused(400, "消息为空");
    }
    var i := OwnedIndex(store.conversations, r.convId, sid.value);
    if i == -1 {
      return Refused(404, "会话不存在");
    }
    if call.registry.LoadFailed? {
      return Refused(500, if call.registry.message != "" then call.registry.message else "agent registry load failed");
    }
    assert Refusal(w, call).None?;
    resp := Accept(store, cache, parse, i, r, call, effective);
    HandleServed(parse, w, call);
  }

  /** A request that passed the checks: the agent is chosen, the request recorded, then the
      stream. */
  method Accept(store: Store, cache: TokenCache.TokenCache, parse: string -> Option<Json>, i: nat,
                r: ChatRequest, call: ChatCall, prompt: string)
    returns (resp: Response)
    requires i < |store.conversations| && call.registry.Loaded? && |call.registry.agents| > 0
    modifies store, cache
    ensures var agent := SelectAgent(call.registry.agents, old(store.conversations[i]), r);
            var c1 := Opened(old(store.conversations[i]), r, agent, call);
            var out := Stream(parse, c1, agent, old(cache.State()), call, prompt);
            && store.conversations == old(store.conversations)[i := out.0]
            && store.sessions == Upsert(old(store.sessions), Some(JStr(c1.id)), Touched(c1, agent, call.now))
            && cache.State() == out.1 && resp == Streamed(out.2, out.3)
    ensures store.scores == old(store.scores)
  {
    var agent := SelectAgent(call.registry.agents, store.conversations[i], r);
    ghost var base := store.sessions;
    var recorded := Record(store, i, r, agent, call);
    resp := Answer(store, cache, parse, i, recorded, agent, call, prompt, base);
  }

  /** The handler's result once no refusal applies, spelled out step by step. */
  lemma HandleServed(parse: string -> Option<Json>, w: World, call: ChatCall)
    requires ValidCall(call) && Refusal(w, call).None?
    ensures var r := ReadRequest(call.body);
            var i := OwnedIndex(w.conversations, r.convId, DevAuth.Sid(call.cookie).value);
            && 0 <= i < |w.conversations|
            && var agent := SelectAgent(call.registry.agents, w.conversations[i], r);
            var c1 := Opened(w.conversations[i], r, agent, call);
            var out := Stream(parse, c1, agent, w.cache, call, EffectiveMessage(r));
            Handle(parse, w, call)
            == (World(w.conversations[i := out.0], Upsert(w.sessions, Some(JStr(c1.id)), Touched(c1, agent, call.now)), out.1),
                Streamed(out.2, out.3))
  {
  }

  /** Recording the request: the conversation is opened and saved, and the session touched. */
  method Record(store: Store, i: nat, r: ChatRequest, agent: Json, call: ChatCall) returns (recorded: Conversation)
    requires i < |store.conversations|
    modifies store
    ensures recorded == Opened(old(store.conversations[i]), r, agent, call)
    ensures store.conversations == old(store.conversations)[i := recorded]
    ensures store.sessions == Upsert(old(store.sessions), Some(JStr(recorded.id)), Touched(recorded, agent, call.now))
    ensures store.scores == old(store.scores)
  {
    recorded := Opened(store.conversations[i], r, agent, call);
    store.conversations := store.conversations[i := recorded];
    store.TouchAgentSession(recorded.id, Prop(Some(agent), "name"), Prop(Some(agent), "id"), recorded.createdAt, call.now);
  }

  /** The stream: the token, the upstream response, and the relay loop over its body. */
  method Answer(store: Store, cache: TokenCache.TokenCache, parse: string -> Option<Json>, i: nat,
                recorded: Conversation, agent: Json, call: ChatCall, prompt: string, ghost base: seq<Json>)
    returns (resp: Response)
    requires i < |store.conversations| && store.conversations[i] == recorded
    requires store.sessions == Upsert(base, Some(JStr(recorded.id)), Touched(recorded, agent, call.now))
    modifies store, cache
    ensures var out := Stream(parse, recorded, agent, old(cache.State()), call, prompt);
            && store.conversations == old(store.conversations)[i := out.0]
            && cache.State() == out.1 && resp == Streamed(out.2, out.3)
    ensures store.sessions == old(store.sessions) && store.scores == old(store.scores)
  {
    var agentId, agentName := Prop(Some(agent), "id"), Prop(Some(agent), "name");
    var meta := MetaAgent(agentId, agentName);
    var outcome := cache.GetAccessToken(call.now, call.tokenReply);
    if outcome.Failed? {
      return Streamed([meta, ErrorOut(Message0(outcome.message)), Sentinel], None);
    }
    var sent := UpstreamBody(agent, recorded, prompt);
    if !call.upstream.ok || !call.upstream.hasBody {
      return Streamed([meta, ErrorOut("upstream HTTP " + Strings.IntToString(call.upstream.status)), Sentinel], Some(sent));
    }
    var loop := new Relay.RelayLoop(Relay.ChatVariant, parse, recorded.agentConversationId, recorded.agentLastHistoryId, [meta]);
    loop.Pump(call.upstream.chunks);
    if loop.changes > 0 {
      // Each change of the upstream conversation id touches the session again, with the same entry.
      UpsertIdempotent(base, Some(JStr(recorded.id)), Touched(recorded, agent, call.now));
      store.TouchAgentSession(recorded.id, agentName, agentId, recorded.createdAt, call.now);
    }
    var settled := Settled(recorded, loop.State(), call.aiMsgId);
    store.conversations := store.conversations[i := settled];
    resp := Streamed(loop.out + [Sentinel], Some(sent));
  }
}
