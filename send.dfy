/** `POST /api/send`: the canned-reply chat. The user's message is stored together with a reply
    chosen by keyword (`aiReply`), and the updated conversation is returned. The cookie, the
    body, the two message ids and the clock are inputs. */
module Send {
  import opened Wrappers
  import opened Json
  import Strings
  import DevAuth
  import opened Records

  /** `String.prototype.toLowerCase` on one character; only A–Z are mapped. */
  function LowerChar(c: char): char {
    if 'A' <= c <= 'Z' then (c as int + 32) as char else c
  }

  /** `text.toLowerCase()`. */
  function Lower(s: string): (r: string)
    ensures |r| == |s| && forall i :: 0 <= i < |s| ==> r[i] == LowerChar(s[i])
  {
    seq(|s|, i requires 0 <= i < |s| => LowerChar(s[i]))
  }

  /** No ASCII letter: the characters lower-casing cannot produce or change. */
  predicate NoAsciiLetter(k: string) {
    forall i :: 0 <= i < |k| ==> !('A' <= k[i] <= 'Z') && !('a' <= k[i] <= 'z')
  }

  /** A keyword without ASCII letters occurs in the lower-cased text exactly where it occurs in
      the text. */
  lemma LowerKeepsKeyword(t: string, k: string, i: int)
    requires NoAsciiLetter(k)
    ensures Strings.OccursAt(Lower(t), k, i) <==> Strings.OccursAt(t, k, i)
  {
    if 0 <= i <= |t| - |k| {
      var l := Lower(t);
      if l[i..i + |k|] == k {
        forall j | 0 <= j < |k|
          ensures t[i + j] == k[j]
        {
          assert l[i + j] == k[j];
        }
        assert t[i..i + |k|] == k;
      }
      if t[i..i + |k|] == k {
        forall j | 0 <= j < |k|
          ensures l[i + j] == k[j]
        {
          assert t[i + j] == k[j];
        }
        assert l[i..i + |k|] == k;
      }
    }
  }

  lemma LowerContains(t: string, k: string)
    requires NoAsciiLetter(k)
    ensures Strings.Contains(Lower(t), k) <==> Strings.Contains(t, k)
  {
    if Strings.Contains(Lower(t), k) {
      var i :| 0 <= i <= |t| - |k| && Strings.OccursAt(Lower(t), k, i);
      LowerKeepsKeyword(t, k, i);
    }
    if Strings.Contains(t, k) {
      var i :| 0 <= i <= |t| - |k| && Strings.OccursAt(t, k, i);
      LowerKeepsKeyword(t, k, i);
    }
  }

  const FeverReply: string := "请描述发热时长、最高体温、伴随寒战或出汗"
  const CoughReply: string := "请描述咳嗽性质、频率、是否有痰及痰色"
  const PainReply: string := "请给出疼痛部位、性质、程度与持续时间"
  const GeneralReply: string := "请继续描述症状的起始时间、诱因、缓解加重因素、既往史与用药"

  /** `aiReply(text)`: the checks run on the lower-cased text. */
  function AiReply(text: string): string {
    var lower := Lower(text);
    if Strings.Contains(lower, "发烧") || Strings.Contains(lower, "发热") then FeverReply
    else if Strings.Contains(lower, "咳") || Strings.Contains(lower, "咳嗽") then CoughReply
    else if Strings.Contains(lower, "痛") then PainReply
    else GeneralReply
  }

  /** The reply follows the first keyword group the message mentions, in priority order fever,
      cough, pain; lower-casing never matters, and `咳嗽` adds nothing to `咳`. */
  lemma ReplyPriority(text: string)
    ensures var fever := Strings.Contains(text, "发烧") || Strings.Contains(text, "发热");
            var cough := Strings.Contains(text, "咳");
            var pain := Strings.Contains(text, "痛");
            AiReply(text) == (if fever then FeverReply else if cough then CoughReply
                              else if pain then PainReply else GeneralReply)
  {
    LowerContains(text, "发烧");
    LowerContains(text, "发热");
    LowerContains(text, "咳");
    LowerContains(text, "痛");
    var lower := Lower(text);
    if Strings.Contains(lower, "咳嗽") {
      var i :| 0 <= i <= |lower| - 2 && Strings.OccursAt(lower, "咳嗽", i);
      assert lower[i..i + 1] == lower[i..i + 2][..1] == "咳";
      assert Strings.OccursAt(lower, "咳", i);
    }
  }

  /** A JSON error with its status, the updated conversation, or the `TypeError` a non-string
      message raises. */
  datatype Response = Refused(status: int, error: string) | Replied(conv: Conversation) | Threw

  /** One request: the new conversation list and the response. A truthy message that is not a
      string makes `toLowerCase` throw after the lookup; nothing is saved then. */
  function Handle(convs: seq<Conversation>, cookie: Option<string>, body: Json, userMsgId: string,
                  aiMsgId: string, now: int): (seq<Conversation>, Response)
  {
    var sid := DevAuth.Sid(cookie);
    var message := Prop(Some(body), "message");
    if sid.None? then (convs, Refused(401, "未登录"))
    else if !Truthy(message) then (convs, Refused(400, "消息为空"))
    else
      var i := OwnedIndex(convs, Prop(Some(body), "convId"), sid.value);
      if i == -1 then (convs, Refused(404, "会话不存在"))
      else if !message.value.JStr? then (convs, Threw)
      else
        var text := message.value.s;
        var c := convs[i].(messages := convs[i].messages + [Message(userMsgId, "user", text, now, None),
                                                            Message(aiMsgId, "ai", AiReply(text), now, None)]);
        (convs[i := c], Replied(c))
  }

  /** Only a reply changes anything, and then exactly one conversation, the caller's, gains
      exactly two messages: the user's text, then the reply chosen for it; the response is that
      conversation. */
  lemma TwoMessagesAppended(convs: seq<Conversation>, cookie: Option<string>, body: Json, userMsgId: string,
                            aiMsgId: string, now: int)
    ensures var (convs1, resp) := Handle(convs, cookie, body, userMsgId, aiMsgId, now);
            && (!resp.Replied? ==> convs1 == convs)
            && (resp.Replied? ==>
                  && DevAuth.Sid(cookie).Some? && Prop(Some(body), "message").Some?
                  && Prop(Some(body), "message").value.JStr?
                  && var text := Prop(Some(body), "message").value.s;
                  && var i := OwnedIndex(convs, Prop(Some(body), "convId"), DevAuth.Sid(cookie).value);
                  && 0 <= i < |convs| && convs[i].userId == DevAuth.Sid(cookie).value
                  && convs1 == convs[i := resp.conv]
                  && resp.conv == convs[i].(messages := resp.conv.messages)
                  && |resp.conv.messages| == |convs[i].messages| + 2
                  && resp.conv.messages[..|convs[i].messages|] == convs[i].messages
                  && resp.conv.messages[|convs[i].messages|] == Message(userMsgId, "user", text, now, None)
                  && resp.conv.messages[|convs[i].messages| + 1] == Message(aiMsgId, "ai", AiReply(text), now, None))
  {
    var (convs1, resp) := Handle(convs, cookie, body, userMsgId, aiMsgId, now);
    if resp.Replied? {
      var i := OwnedIndex(convs, Prop(Some(body), "convId"), DevAuth.Sid(cookie).value);
      assert resp.conv.messages[..|convs[i].messages|] == convs[i].messages;
    }
  }

  /** The refusals, in the route's order: no session, an empty message, no such conversation. */
  lemma RefusalOrder(convs: seq<Conversation>, cookie: Option<string>, body: Json, userMsgId: string,
                     aiMsgId: string, now: int)
    ensures var resp := Handle(convs, cookie, body, userMsgId, aiMsgId, now).1;
            && (DevAuth.Sid(cookie).None? <==> resp == Refused(401, "未登录"))
            && (DevAuth.Sid(cookie).Some? && !Truthy(Prop(Some(body), "message")) <==> resp == Refused(400, "消息为空"))
  {
  }

  /** The route handler: it appends to the conversation in the store. */
  method Post(store: Store, cookie: Option<string>, body: Json, userMsgId: string, aiMsgId: string, now: int)
    returns (resp: Response)
    modifies store
    ensures (store.conversations, resp) == Handle(old(store.conversations), cookie, body, userMsgId, aiMsgId, now)
    ensures store.sessions == old(store.sessions) && store.scores == old(store.scores)
  {
    var sid := DevAuth.Sid(cookie);
    if sid.None? {
      return Refused(401, "未登录");
    }
    var message := Prop(Some(body), "message");
    if !Truthy(message) {
      return Refused(400, "消息为空");
    }
    var i := OwnedIndex(store.conversations, Prop(Some(body), "convId"), sid.value);
    if i == -1 {
      return Refused(404, "会话不存在");
    }
    if !message.value.JStr? {
      return Threw;
    }
    var text := message.value.s;
    var conv := store.conversations[i];
    var user := Message(userMsgId, "user", text, now, None);
    conv := conv.(messages := conv.messages + [user]);
    var reply := AiReply(text);
    var ai := Message(aiMsgId, "ai", reply, now, None);
    assert conv.messages + [ai] == store.conversations[i].messages + [user, ai];
    conv := conv.(messages := conv.messages + [ai]);
    store.conversations := store.conversations[i := conv];
    resp := Replied(conv);
  }
}
