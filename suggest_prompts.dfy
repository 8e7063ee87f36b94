/** `POST /api/qingyan/suggest-prompts`: follow-up prompts the assistant suggests for a
    conversation. The request is checked against the store, an access token is taken from this
    route's own cache, the assistant's `suggest/prompts` endpoint is asked with the conversation's
    upstream ids, and its list is cleaned up and returned. The cookie, the request body, the
    agent registry, the clock and the two upstream replies are inputs. */
module SuggestPrompts {
  import opened Wrappers
  import opened Json
  import Strings
  import Seqs
  import Escapes
  import TokenCache
  import DevAuth
  import opened Records

  /** What `POST /suggest/prompts` answers: `res.ok`, `res.status`, the body text and the body
      decoded as JSON (`None` when it is not JSON). */
  datatype PromptsReply = PromptsReply(ok: bool, status: int, text: string, body: Option<Json>)

  /** The inputs of one request. `body` is what `req.json()` resolved to (`{}` when it failed). */
  datatype SuggestCall = SuggestCall(cookie: Option<string>, body: Json, registry: Json, now: int,
                                     tokenReply: TokenCache.TokenReply, reply: PromptsReply)

  /** The JSON response: an error with its status, or the prompt list. */
  datatype Response = Refused(status: int, error: Json) | Suggested(list: seq<string>)

  const NoUpstreamConversation: string := "该会话尚未建立上游 conversation_id（请先发送一句话或等待问候语完成）"
  const SuggestFailed: string := "获取推荐对话失败"

  /** The checks made before anything is fetched: session, `convId`, ownership, the upstream
      conversation id, the registry's credentials. */
  function Refusal(convs: seq<Conversation>, call: SuggestCall): Option<Response> {
    var sid := DevAuth.Sid(call.cookie);
    var convId := Prop(Some(call.body), "convId");
    if sid.None? then Some(Refused(401, JStr("未登录")))
    else if !Truthy(convId) then Some(Refused(400, JStr("缺少 convId")))
    else
      var i := OwnedIndex(convs, convId, sid.value);
      if i == -1 then Some(Refused(404, JStr("会话不存在")))
      else if !Truthy(convs[i].agentConversationId) then Some(Refused(400, JStr(NoUpstreamConversation)))
      else if !Truthy(Prop(Some(call.registry), "key")) || !Truthy(Prop(Some(call.registry), "secret"))
      then Some(Refused(500, JStr("未配置清言 API 凭证")))
      else None
  }

  /** `{ conversation_id }`, with `log_id` when the conversation has a last history id. */
  function UpstreamBody(c: Conversation): Json {
    var base := map["conversation_id" := if c.agentConversationId.Some? then c.agentConversationId.value else JNull];
    JObj(if Truthy(c.agentLastHistoryId) then base["log_id" := c.agentLastHistoryId.value] else base)
  }

  /** `log_id` is sent exactly when the conversation has a (truthy) last history id, and then it is
      that id; the upstream conversation id is always sent. */
  lemma LogIdIff(c: Conversation)
    requires Truthy(c.agentConversationId)
    ensures Prop(Some(UpstreamBody(c)), "log_id").Some? <==> Truthy(c.agentLastHistoryId)
    ensures Truthy(c.agentLastHistoryId) ==> Prop(Some(UpstreamBody(c)), "log_id") == c.agentLastHistoryId
    ensures Prop(Some(UpstreamBody(c)), "conversation_id") == c.agentConversationId
  {
  }

  /** `x => typeof x === 'string' && x.trim()`. */
  predicate Usable(x: Json) {
    x.JStr? && Strings.Trim(x.s) != ""
  }

  /** The non-blank string items of the list, escape-decoded, in order. */
  function Candidates(items: seq<Json>): seq<string> {
    Seqs.Map(Seqs.Filter(items, Usable), (x: Json) => if x.JStr? then Escapes.DecodeEscapedText(x.s) else "")
  }

  /** `json?.result?.list`, cleaned up: at most six of the candidates, the first ones; nothing when
      the list is not an array. */
  function PromptList(json: Json): (r: seq<string>)
    ensures |r| <= 6
    ensures var list := Prop(Prop(Some(json), "result"), "list");
            && (list.Some? && list.value.JArr? ==>
                  var c := Candidates(list.value.items);
                  |r| == (if |c| < 6 then |c| else 6) && r == c[..|r|])
            && (!(list.Some? && list.value.JArr?) ==> r == [])
  {
    var list := Prop(Prop(Some(json), "result"), "list");
    if list.Some? && list.value.JArr? then
      var c := Candidates(list.value.items);
      if |c| <= 6 then c else c[..6]
    else []
  }

  /** Every prompt returned is a non-blank string item of the upstream list, decoded. */
  lemma PromptsComeFromList(json: Json)
    ensures var list := Prop(Prop(Some(json), "result"), "list");
            forall p :: p in PromptList(json) ==>
              list.Some? && list.value.JArr? &&
              exists x :: x in list.value.items && x.JStr? && Strings.Trim(x.s) != "" && p == Escapes.DecodeEscapedText(x.s)
  {
    var list := Prop(Prop(Some(json), "result"), "list");
    if list.Some? && list.value.JArr? {
      var items := list.value.items;
      var f := (x: Json) => if x.JStr? then Escapes.DecodeEscapedText(x.s) else "";
      Seqs.FilterMembers(items, Usable);
      forall p | p in PromptList(json)
        ensures exists x :: x in items && x.JStr? && Strings.Trim(x.s) != "" && p == Escapes.DecodeEscapedText(x.s)
      {
        var c := Candidates(items);
        var k :| 0 <= k < |PromptList(json)| && PromptList(json)[k] == p;
        var x := Seqs.Filter(items, Usable)[k];
        assert x in Seqs.Filter(items, Usable);
        assert c[k] == f(x);
      }
    }
  }

  /** `json.message || json.error || fallback`. */
  function UpstreamError(json: Json): Json {
    Or(Or(Prop(Some(json), "message"), Prop(Some(json), "error")), Some(JStr(SuggestFailed))).value
  }

  /** `sseJson`: the decoded body, or `{ _raw: text }`. */
  function ReplyJson(reply: PromptsReply): Json {
    if reply.body.Some? then reply.body.value else Obj1("_raw", JStr(reply.text))
  }

  /** The result of one request: the conversations, the token cache and the response. */
  function Handle(convs: seq<Conversation>, cache: TokenCache.CacheState, call: SuggestCall)
    : (seq<Conversation>, TokenCache.CacheState, Response)
  {
    match Refusal(convs, call)
    case Some(refused) => (convs, cache, refused)
    case None =>
      var i := OwnedIndex(convs, Prop(Some(call.body), "convId"), DevAuth.Sid(call.cookie).value);
      var (cache1, outcome) := TokenCache.SuggestTokenStep(cache, call.now, call.tokenReply);
      if outcome.Failed? then
        (convs, cache1, Refused(500, JStr(if outcome.message != "" then outcome.message else SuggestFailed)))
      else
        var json := ReplyJson(call.reply);
        if !call.reply.ok then (convs, cache1, Refused(502, UpstreamError(json)))
        else (convs[i := convs[i].(updatedAt := call.now)], cache1, Suggested(PromptList(json)))
  }

  /** A request refused by the checks changes nothing and touches no token. An upstream failure
      (token or prompts) leaves the conversations as they were. A success changes only the
      conversation's `updatedAt`, to the clock. */
  lemma HandleEffects(convs: seq<Conversation>, cache: TokenCache.CacheState, call: SuggestCall)
    ensures var (convs1, cache1, resp) := Handle(convs, cache, call);
            && (Refusal(convs, call).Some? ==> convs1 == convs && cache1 == cache && resp == Refusal(convs, call).value)
            && (resp.Refused? ==> convs1 == convs)
            && (resp.Suggested? ==>
                  var i := OwnedIndex(convs, Prop(Some(call.body), "convId"), DevAuth.Sid(call.cookie).value);
                  && 0 <= i < |convs| && |convs1| == |convs|
                  && convs1[i] == convs[i].(updatedAt := call.now)
                  && convs[i].userId == call.cookie.value
                  && (forall j :: 0 <= j < |convs| && j != i ==> convs1[j] == convs[j])
                  && |resp.list| <= 6)
  {
  }

  /** The route's `POST`: it may refresh the cache and touch the conversation. */
  method Post(store: Store, cache: TokenCache.TokenCache, call: SuggestCall) returns (resp: Response)
    modifies store, cache
    ensures (store.conversations, cache.State(), resp) == Handle(old(store.conversations), old(cache.State()), call)
    ensures store.sessions == old(store.sessions) && store.scores == old(store.scores)
  {
    var refusal := Refusal(store.conversations, call);
    if refusal.Some? {
      return refusal.value;
    }
    var i := OwnedIndex(store.conversations, Prop(Some(call.body), "convId"), DevAuth.Sid(call.cookie).value);
    var outcome := cache.GetSuggestToken(call.now, call.tokenReply);
    if outcome.Failed? {
      return Refused(500, JStr(if outcome.message != "" then outcome.message else SuggestFailed));
    }
    var json := ReplyJson(call.reply);
    if !call.reply.ok {
      return Refused(502, UpstreamError(json));
    }
    var prompts := PromptList(json);
    store.conversations := store.conversations[i := store.conversations[i].(updatedAt := call.now)];
    resp := Suggested(prompts);
  }
}
