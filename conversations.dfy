/** `/api/conversations`: listing a user's conversations (`GET`), creating one with a title unique
    among that user's titles (`POST`, with `makeUniqueTitle`), and deleting one together with its
    session-index entries and its scores (`DELETE`). The environment, the cookie, the request,
    the agent list, the new id and the clock are inputs. */
module Conversations {
  import opened Wrappers
  import opened Json
  import Strings
  import Seqs
  import DevAuth
  import ChatRoute
  import opened Records
  import Downstream

  // ----- makeUniqueTitle -----

  /** `String(base || '').trim() || '新问诊'`. */
  function Root(base: Option<Json>): (root: string)
    ensures root != ""
  {
    var t := Strings.Trim(StringOrEmpty(base));
    if t != "" then t else "新问诊"
  }

  /** The number `n` when `t` is `root（n）` (the pattern `^root（(\d+)）$` with `root` escaped),
      as `Number(m[1])` reads it. */
  function Suffix(t: string, root: string): Option<nat> {
    if |t| >= |root| + 3 && t[..|root|] == root && t[|root|] == '（' && t[|t| - 1] == '）'
       && Strings.AllDigits(t[|root| + 1..|t| - 1])
    then Some(Strings.DigitsValue(t[|root| + 1..|t| - 1]))
    else None
  }

  /** `Number(m[1]) || 0` for one title: its suffix, or 0 when it has none. */
  function SuffixOr0(t: string, root: string): nat {
    if t == root then 0 else match Suffix(t, root) case Some(n) => n case None => 0
  }

  /** The largest suffix among the titles, or 0. */
  function MaxSuffix(titles: seq<string>, root: string): nat {
    if titles == [] then 0
    else
      var m := MaxSuffix(titles[..|titles| - 1], root);
      var n := SuffixOr0(titles[|titles| - 1], root);
      if n > m then n else m
  }

  /** `root（n）`. */
  function Numbered(root: string, n: nat): string {
    root + "（" + Strings.NatToString(n) + "）"
  }

  /** What `makeUniqueTitle` returns: the root itself when it is free and no title is numbered
      above 0, else the root numbered one above the largest suffix. */
  function UniqueTitle(root: string, titles: seq<string>): string {
    var m := MaxSuffix(titles, root);
    if root !in titles && m == 0 then root else Numbered(root, if m + 1 > 1 then m + 1 else 1)
  }

  /** The loop of `makeUniqueTitle`: whether the root itself is taken, and the largest suffix. */
  method ScanTitles(root: string, titles: seq<string>) returns (hasRoot: bool, maxSuffix: nat)
    ensures hasRoot <==> root in titles
    ensures maxSuffix == MaxSuffix(titles, root)
  {
    hasRoot := false;
    maxSuffix := 0;
    for i := 0 to |titles|
      invariant hasRoot <==> root in titles[..i]
      invariant maxSuffix == MaxSuffix(titles[..i], root)
    {
      assert titles[..i + 1][..i] == titles[..i];
      assert titles[..i + 1] == titles[..i] + [titles[i]];
      var t := titles[i];
      if t == root {
        hasRoot := true;
        continue;
      }
      var m := Suffix(t, root);
      if m.Some? {
        maxSuffix := if m.value > maxSuffix then m.value else maxSuffix;
      }
    }
    assert titles[..|titles|] == titles;
  }

  /** `makeUniqueTitle(base, titles)`. */
  method MakeUniqueTitle(base: Option<Json>, titles: seq<string>) returns (title: string)
    ensures title == UniqueTitle(Root(base), titles)
  {
    var root := Root(base);
    assert root == Root(base);
    var hasRoot, maxSuffix := ScanTitles(root, titles);
    if !hasRoot && maxSuffix == 0 {
      title := root;
    } else {
      title := Numbered(root, if maxSuffix + 1 > 1 then maxSuffix + 1 else 1);
    }
  }

  /** No title has a suffix above the largest one, and a positive largest suffix is some title's. */
  lemma {:induction false} MaxSuffixIsMax(titles: seq<string>, root: string)
    ensures forall k :: 0 <= k < |titles| ==> SuffixOr0(titles[k], root) <= MaxSuffix(titles, root)
    ensures MaxSuffix(titles, root) > 0 ==>
              exists k :: 0 <= k < |titles| && SuffixOr0(titles[k], root) == MaxSuffix(titles, root)
  {
    if titles != [] {
      var n := |titles|;
      MaxSuffixIsMax(titles[..n - 1], root);
      if MaxSuffix(titles, root) > 0 && MaxSuffix(titles, root) == MaxSuffix(titles[..n - 1], root) {
        var k :| 0 <= k < n - 1 && SuffixOr0(titles[..n - 1][k], root) == MaxSuffix(titles[..n - 1], root);
        assert titles[k] == titles[..n - 1][k];
      }
      forall k | 0 <= k < n - 1
        ensures SuffixOr0(titles[k], root) <= MaxSuffix(titles, root)
      {
        assert titles[k] == titles[..n - 1][k];
      }
    }
  }

  /** A numbered title reads back as its number. */
  lemma NumberedSuffix(root: string, n: nat)
    ensures Suffix(Numbered(root, n), root) == Some(n)
    ensures Numbered(root, n) != root
  {
    var t := Numbered(root, n);
    var digits := Strings.NatToString(n);
    assert t[..|root|] == root;
    assert t[|root| + 1..|t| - 1] == digits;
    Strings.NatToStringValue(n);
  }

  /** The title returned is none of the existing titles. */
  lemma UniqueTitleIsFresh(root: string, titles: seq<string>)
    ensures UniqueTitle(root, titles) !in titles
  {
    var m := MaxSuffix(titles, root);
    if !(root !in titles && m == 0) {
      MaxSuffixIsMax(titles, root);
      NumberedSuffix(root, m + 1);
    }
  }

  /** The root is kept exactly when it is free and no title is the root numbered above 0. */
  lemma RootKeptIff(root: string, titles: seq<string>)
    ensures UniqueTitle(root, titles) == root
            <==> root !in titles && forall k :: 0 <= k < |titles| ==> SuffixOr0(titles[k], root) == 0
  {
    MaxSuffixIsMax(titles, root);
    NumberedSuffix(root, MaxSuffix(titles, root) + 1);
  }

  // ----- GET -----

  datatype ListResponse = ListRefused(status: int, error: string) | Listed(conversations: seq<Conversation>)

  /** `GET`: every conversation in bypass mode, otherwise the caller's. */
  function List(env: DevAuth.Env, cookie: Option<string>, convs: seq<Conversation>): ListResponse {
    var r := DevAuth.ResolveSid(env, cookie);
    if r.sid.None? then ListRefused(401, "未登录")
    else if r.bypass then Listed(convs)
    else Listed(Seqs.Filter(convs, (c: Conversation) => c.userId == r.sid.value))
  }

  /** Outside bypass mode the list is exactly the caller's conversations, in store order. */
  lemma ListIsOwn(env: DevAuth.Env, cookie: Option<string>, convs: seq<Conversation>)
    ensures var resp := List(env, cookie, convs);
            var r := DevAuth.ResolveSid(env, cookie);
            && (resp.ListRefused? <==> r.sid.None?)
            && (resp.Listed? && !r.bypass ==>
                  forall c :: c in resp.conversations <==> c in convs && c.userId == r.sid.value)
            && (resp.Listed? && r.bypass ==> resp.conversations == convs)
  {
    var r := DevAuth.ResolveSid(env, cookie);
    if r.sid.Some? {
      Seqs.FilterMembers(convs, (c: Conversation) => c.userId == r.sid.value);
    }
  }

  // ----- POST -----

  /** The inputs of a `POST`: the body (`title`, `agentName`), the agent list, the new id and the
      clock. */
  datatype CreateCall = CreateCall(env: DevAuth.Env, cookie: Option<string>, body: Json, agents: seq<Json>,
                                   newId: string, now: int)

  datatype CreateResponse = CreateRefused(status: int, error: string) | Created(conv: Conversation)

  /** `agentName ? agents.find(a => a?.name === agentName) : agents[0]`. */
  function Selected(agents: seq<Json>, agentName: Option<Json>): Option<Json> {
    if Truthy(agentName) then
      var i := ChatRoute.AgentWith(agents, "name", agentName);
      if i == -1 then None else Some(agents[i])
    else if |agents| > 0 then Some(agents[0])
    else None
  }

  /** The trimmed title when it is a non-blank string, else the agent's name, else `'新问诊'`. */
  function BaseTitle(title: Option<Json>, selected: Json): Option<Json> {
    if title.Some? && title.value.JStr? && Strings.Trim(title.value.s) != "" then Some(JStr(Strings.Trim(title.value.s)))
    else Or(Prop(Some(selected), "name"), Some(JStr("新问诊")))
  }

  /** `String(c.title || '')` of the caller's conversations. */
  function Titles(convs: seq<Conversation>, sid: string): seq<string> {
    Seqs.Map(Seqs.Filter(convs, OwnedBy(sid)), (c: Conversation) => c.title)
  }

  /** `c.userId === sid`, the filter the route applies before collecting titles. */
  function OwnedBy(sid: string): Conversation -> bool {
    (c: Conversation) => c.userId == sid
  }

  /** Each of the caller's conversations contributes its title. */
  lemma OwnedTitles(convs: seq<Conversation>, sid: string)
    ensures forall c :: c in convs && c.userId == sid ==> c.title in Titles(convs, sid)
  {
    var p := OwnedBy(sid);
    var fs := Seqs.Filter(convs, p);
    var ts := Titles(convs, sid);
    Seqs.FilterMembers(convs, p);
    forall c | c in convs && c.userId == sid
      ensures c.title in ts
    {
      assert p(c);
      var k :| 0 <= k < |fs| && fs[k] == c;
      assert ts[k] == c.title;
    }
  }

  /** The session-index entry pushed for the new conversation. */
  function NewSession(conv: Conversation, selected: Json, now: int): Json {
    JObj(Downstream.Defined("agentName", Prop(Some(selected), "name"))
         + Downstream.Defined("agentId", Prop(Some(selected), "id"))
         + map["conversationId" := JStr(conv.id), "createdAt" := JNum(now), "updatedAt" := JNum(now)])
  }

  /** The entry carries the conversation's id. */
  lemma NewSessionId(conv: Conversation, selected: Json, now: int)
    ensures HasId(NewSession(conv, selected, now), Some(JStr(conv.id)))
  {
    assert Prop(Some(NewSession(conv, selected, now)), "conversationId") == Some(JStr(conv.id));
  }

  /** The conversation a `POST` creates for caller `sid` with agent `selected`. */
  function NewConversation(convs: seq<Conversation>, sid: string, selected: Json, call: CreateCall): Conversation {
    var title := UniqueTitle(Root(BaseTitle(Prop(Some(call.body), "title"), selected)), Titles(convs, sid));
    Conversation(call.newId, sid, title, [], call.now, call.now,
                 Prop(Some(selected), "name"), Prop(Some(selected), "id"), Some(JNull), None)
  }

  /** The new conversation's title is none of the caller's existing titles. */
  lemma NewTitleIsFresh(convs: seq<Conversation>, sid: string, selected: Json, call: CreateCall)
    ensures forall c :: c in convs && c.userId == sid ==> c.title != NewConversation(convs, sid, selected, call).title
  {
    var ts := Titles(convs, sid);
    var root := Root(BaseTitle(Prop(Some(call.body), "title"), selected));
    UniqueTitleIsFresh(root, ts);
    OwnedTitles(convs, sid);
    assert NewConversation(convs, sid, selected, call).title == UniqueTitle(root, ts);
  }

  /** One `POST`: the new conversation list, the new session index and the response. */
  function Create(convs: seq<Conversation>, sessions: seq<Json>, call: CreateCall)
    : (seq<Conversation>, seq<Json>, CreateResponse)
  {
    var sid := DevAuth.ResolveSid(call.env, call.cookie).sid;
    if sid.None? then (convs, sessions, CreateRefused(401, "未登录"))
    else
      var selected := Selected(call.agents, Prop(Some(call.body), "agentName"));
      if !Truthy(selected) then (convs, sessions, CreateRefused(400, "无可用智能体"))
      else
        var conv := NewConversation(convs, sid.value, selected.value, call);
        (convs + [conv], sessions + [NewSession(conv, selected.value, call.now)], Created(conv))
  }

  /** A created conversation is appended with no messages, both times the clock, no upstream
      conversation yet, and a title none of the caller's conversations has; a blank title gives
      way to the agent's name. Exactly one session entry is appended, for the new id. */
  lemma CreatedShape(convs: seq<Conversation>, sessions: seq<Json>, call: CreateCall)
    ensures var (convs1, sessions1, resp) := Create(convs, sessions, call);
            && (resp.CreateRefused? ==> convs1 == convs && sessions1 == sessions)
            && (resp.Created? ==>
                  && convs1 == convs + [resp.conv]
                  && resp.conv.messages == [] && resp.conv.createdAt == call.now && resp.conv.updatedAt == call.now
                  && resp.conv.agentConversationId == Some(JNull) && resp.conv.id == call.newId
                  && (forall c :: c in convs && c.userId == resp.conv.userId ==> c.title != resp.conv.title)
                  && |sessions1| == |sessions| + 1 && sessions1[..|sessions|] == sessions
                  && HasId(sessions1[|sessions|], Some(JStr(call.newId)))
                  && CountWithId(sessions1, Some(JStr(call.newId))) == CountWithId(sessions, Some(JStr(call.newId))) + 1)
  {
    var (convs1, sessions1, resp) := Create(convs, sessions, call);
    if resp.Created? {
      var sid := DevAuth.ResolveSid(call.env, call.cookie).sid.value;
      var selected := Selected(call.agents, Prop(Some(call.body), "agentName")).value;
      NewTitleIsFresh(convs, sid, selected, call);
      assert sessions1[..|sessions|] == sessions;
      NewSessionId(resp.conv, selected, call.now);
      CountAppend(sessions, Some(JStr(call.newId)), sessions1[|sessions|]);
    }
  }

  /** A non-blank string title is used trimmed; otherwise the agent's name, else `'新问诊'`. */
  lemma RootOfTitle(title: Option<Json>, selected: Json)
    ensures title.Some? && title.value.JStr? && Strings.Trim(title.value.s) != "" ==>
              Root(BaseTitle(title, selected)) == Strings.Trim(title.value.s)
  {
    if title.Some? && title.value.JStr? && Strings.Trim(title.value.s) != "" {
      var t := Strings.Trim(title.value.s);
      assert BaseTitle(title, selected) == Some(JStr(t));
      assert StringOrEmpty(Some(JStr(t))) == t;
      Strings.TrimIsTrimmed(title.value.s);
      Strings.TrimOfTrimmed(t);
    }
  }

  /** The route's `POST`: it appends to the conversation list and the session index. */
  method Post(store: Store, call: CreateCall) returns (resp: CreateResponse)
    modifies store
    ensures (store.conversations, store.sessions, resp) == Create(old(store.conversations), old(store.sessions), call)
    ensures store.scores == old(store.scores)
  {
    var sid := DevAuth.ResolveSid(call.env, call.cookie).sid;
    if sid.None? {
      return CreateRefused(401, "未登录");
    }
    var selected := Selected(call.agents, Prop(Some(call.body), "agentName"));
    if !Truthy(selected) {
      return CreateRefused(400, "无可用智能体");
    }
    var title := MakeUniqueTitle(BaseTitle(Prop(Some(call.body), "title"), selected.value), Titles(store.conversations, sid.value));
    var conv := Conversation(call.newId, sid.value, title, [], call.now, call.now,
                             Prop(selected, "name"), Prop(selected, "id"), Some(JNull), None);
    assert conv == NewConversation(store.conversations, sid.value, selected.value, call);
    store.conversations := store.conversations + [conv];
    store.sessions := store.sessions + [NewSession(conv, selected.value, call.now)];
    resp := Created(conv);
  }

  // ----- DELETE -----

  datatype DeleteResponse = DeleteRefused(status: int, error: string) | Deleted

  /** One `DELETE` of conversation `id` (the query parameter): the new conversations, session
      index and score list, and the response. */
  function Delete(convs: seq<Conversation>, sessions: seq<Json>, scores: seq<ScoreRecord>,
                  env: DevAuth.Env, cookie: Option<string>, id: Option<string>)
    : (seq<Conversation>, seq<Json>, seq<ScoreRecord>, DeleteResponse)
  {
    var sid := DevAuth.ResolveSid(env, cookie).sid;
    if sid.None? then (convs, sessions, scores, DeleteRefused(401, "未登录"))
    else if id.None? || id.value == "" then (convs, sessions, scores, DeleteRefused(400, "缺少会话ID"))
    else
      var idx := OwnedIndex(convs, Some(JStr(id.value)), sid.value);
      if idx == -1 then (convs, sessions, scores, DeleteRefused(404, "会话不存在"))
      else
        (convs[..idx] + convs[idx + 1..],
         Seqs.Filter(sessions, (x: Json) => !HasId(x, Some(JStr(id.value)))),
         Seqs.Filter(scores, (s: ScoreRecord) => !(s.convId == id.value && s.userId == sid.value)),
         Deleted)
  }

  /** A deletion removes exactly the first of the caller's conversations with that id, keeping
      the others in order, every session entry with that id and every score of the caller for
      it; everything else stays. A refusal changes nothing. */
  lemma DeleteCascade(convs: seq<Conversation>, sessions: seq<Json>, scores: seq<ScoreRecord>,
                      env: DevAuth.Env, cookie: Option<string>, id: Option<string>)
    ensures var (convs1, sessions1, scores1, resp) := Delete(convs, sessions, scores, env, cookie, id);
            && (resp.DeleteRefused? ==> convs1 == convs && sessions1 == sessions && scores1 == scores)
            && (resp.Deleted? ==>
                  && id.Some? && var sid := DevAuth.ResolveSid(env, cookie).sid.value;
                  && var idx := OwnedIndex(convs, Some(JStr(id.value)), sid);
                  && 0 <= idx < |convs| && convs[idx].id == id.value && convs[idx].userId == sid
                  && convs1 == convs[..idx] + convs[idx + 1..]
                  && (forall x :: x in sessions1 <==> x in sessions && !HasId(x, Some(JStr(id.value))))
                  && (forall s :: s in scores1 <==> s in scores && !(s.convId == id.value && s.userId == sid)))
  {
    var (convs1, sessions1, scores1, resp) := Delete(convs, sessions, scores, env, cookie, id);
    if resp.Deleted? {
      var sid := DevAuth.ResolveSid(env, cookie).sid.value;
      var idx := OwnedIndex(convs, Some(JStr(id.value)), sid);
      StrictEqualsEqual(Some(JStr(convs[idx].id)), Some(JStr(id.value)));
      Seqs.FilterMembers(sessions, (x: Json) => !HasId(x, Some(JStr(id.value))));
      Seqs.FilterMembers(scores, (s: ScoreRecord) => !(s.convId == id.value && s.userId == sid));
    }
  }

  /** The route's `DELETE`: it splices the conversation list and filters the other two. */
  method Remove(store: Store, env: DevAuth.Env, cookie: Option<string>, id: Option<string>)
    returns (resp: DeleteResponse)
    modifies store
    ensures (store.conversations, store.sessions, store.scores, resp)
            == Delete(old(store.conversations), old(store.sessions), old(store.scores), env, cookie, id)
  {
    var sid := DevAuth.ResolveSid(env, cookie).sid;
    if sid.None? {
      return DeleteRefused(401, "未登录");
    }
    if id.None? || id.value == "" {
      return DeleteRefused(400, "缺少会话ID");
    }
    var idx := OwnedIndex(store.conversations, Some(JStr(id.value)), sid.value);
    if idx == -1 {
      return DeleteRefused(404, "会话不存在");
    }
    store.conversations := store.conversations[..idx] + store.conversations[idx + 1..];
    store.sessions := Seqs.Filter(store.sessions, (x: Json) => !HasId(x, Some(JStr(id.value))));
    store.scores := Seqs.Filter(store.scores, (s: ScoreRecord) => !(s.convId == id.value && s.userId == sid.value));
    resp := Deleted;
  }
}
