/** The records the routes keep in the JSON store (`conversations.json`, the session index and
    `scores.json`), and the store itself as one object whose three lists the routes update in
    place. Conversations and scores are typed records with the fields the routes read and write;
    session-index entries stay decoded JSON objects, because the routes merge them with object
    spread and compare their fields with `===`. */
module Records {
  import opened Wrappers
  import opened Json
  import Seqs
  import MarkdownTable
  import ScoreSummary

  /** The agent fields of an assistant message (`agentId`, `agentName`, `init`). */
  datatype Reply = Reply(agentId: Option<Json>, agentName: Option<Json>, init: bool)

  /** `{ id, role, text, ts }`, plus the agent fields on the messages the chat relay writes. */
  datatype Message = Message(id: string, role: string, text: string, ts: int, reply: Option<Reply>)

  /** One conversation. `agentName`/`agentId` are whatever the agent list held (possibly
      missing); the two upstream ids are `None` until the relay stores one. */
  datatype Conversation = Conversation(
    id: string,
    userId: string,
    title: string,
    messages: seq<Message>,
    createdAt: int,
    updatedAt: int,
    agentName: Option<Json>,
    agentId: Option<Json>,
    agentConversationId: Option<Json>,
    agentLastHistoryId: Option<Json>)

  /** `report: { headers, rows, summary }` of an agent-written score. */
  datatype Report = Report(headers: seq<string>, rows: seq<Json>, summary: ScoreSummary.Summary)

  /** A score record: the keyword-coverage score (with `mode: 'keyword-mock'` when the score relay
      falls back to it, without a mode when `scores/generate` writes it), or the agent's Markdown
      report (`mode: 'agent-md'`), whose `score` field is `totalScore` here. */
  datatype ScoreRecord =
    | KeywordScore(id: string, userId: string, convId: string, mode: Option<string>,
                   score: int, covered: nat, total: nat, ts: int)
    | AgentScore(id: string, userId: string, convId: string, ts: int,
                 totalScore: Option<real>, reportMd: string, report: Report)

  // ----- finding a conversation -----

  /** `c.id === convId && c.userId === sid`. */
  predicate Owned(c: Conversation, convId: Option<Json>, sid: string) {
    StrictEquals(Some(JStr(c.id)), convId) && c.userId == sid
  }

  /** `all.findIndex(c => c.id === convId && c.userId === sid)`. */
  function OwnedIndex(convs: seq<Conversation>, convId: Option<Json>, sid: string): (i: int)
    ensures i == -1 || (0 <= i < |convs| && Owned(convs[i], convId, sid))
  {
    Seqs.FirstIndex(|convs|, 0, (k: nat) => k < |convs| && Owned(convs[k], convId, sid))
  }

  /** The index found is the first owned conversation; -1 means none is owned. */
  lemma OwnedIndexFirst(convs: seq<Conversation>, convId: Option<Json>, sid: string)
    ensures var i := OwnedIndex(convs, convId, sid);
            forall k :: 0 <= k < |convs| && (i == -1 || k < i) ==> !Owned(convs[k], convId, sid)
  {
    var ok := (k: nat) => k < |convs| && Owned(convs[k], convId, sid);
    Seqs.FirstIndexLeast(|convs|, 0, ok);
    var i := OwnedIndex(convs, convId, sid);
    forall k | 0 <= k < |convs| && (i == -1 || k < i)
      ensures !Owned(convs[k], convId, sid)
    {
      assert !ok(k);
    }
  }

  /** `conv.messages.find(m => m.id === id)` receives `text`: the first message with that id. */
  function SetText(ms: seq<Message>, id: string, text: string): (r: seq<Message>)
    ensures |r| == |ms|
  {
    var i := Seqs.FirstIndex(|ms|, 0, (k: nat) => k < |ms| && ms[k].id == id);
    if i == -1 then ms else ms[i := ms[i].(text := text)]
  }

  /** When the id is that of the last message only, exactly the last message's text changes. */
  lemma SetTextOfLast(ms: seq<Message>, m: Message, text: string)
    requires forall k :: 0 <= k < |ms| ==> ms[k].id != m.id
    ensures SetText(ms + [m], m.id, text) == ms + [m.(text := text)]
  {
    var all := ms + [m];
    var ok := (k: nat) => k < |all| && all[k].id == m.id;
    var i := Seqs.FirstIndex(|all|, 0, ok);
    Seqs.FirstIndexLeast(|all|, 0, ok);
    assert ok(|ms|);
    assert i == |ms|;
  }

  // ----- the session index -----

  /** `s?.conversationId === id`. */
  predicate HasId(s: Json, id: Option<Json>) {
    StrictEquals(Prop(Some(s), "conversationId"), id)
  }

  /** `sessions.findIndex(s => s?.conversationId === id)`. */
  function SessionIndex(sessions: seq<Json>, id: Option<Json>): (i: int)
    ensures i == -1 || (0 <= i < |sessions| && HasId(sessions[i], id))
  {
    Seqs.FirstIndex(|sessions|, 0, (k: nat) => k < |sessions| && HasId(sessions[k], id))
  }

  /** The normalised entry `{ conversationId, createdAt, agentName, agentId, updatedAt }`. */
  function SessionFields(conversationId: Json, createdAt: int, agentName: string, agentId: string,
                         updatedAt: int): map<string, Json>
  {
    map["conversationId" := conversationId, "createdAt" := JNum(createdAt),
        "agentName" := JStr(agentName), "agentId" := JStr(agentId), "updatedAt" := JNum(updatedAt)]
  }

  /** The normalised entry carries the id it was built with. */
  lemma SessionFieldsId(conversationId: Json, createdAt: int, agentName: string, agentId: string,
                        updatedAt: int)
    ensures var f := SessionFields(conversationId, createdAt, agentName, agentId, updatedAt);
            "conversationId" in f && f["conversationId"] == conversationId
  {
  }

  /** `{ ...old, ...next }`. */
  function Spread(prev: Json, next: map<string, Json>): Json {
    JObj((if prev.JObj? then prev.fields else map[]) + next)
  }

  /** The upsert of `touchAgentSession` and of the session index's `POST`: the first entry with
      the id gets `next` spread over it, or `next` is appended when there is none. */
  function Upsert(sessions: seq<Json>, id: Option<Json>, next: map<string, Json>): seq<Json> {
    var i := SessionIndex(sessions, id);
    if i == -1 then sessions + [JObj(next)] else sessions[i := Spread(sessions[i], next)]
  }

  /** Where the upsert writes: the first entry with the id, or the end. */
  function UpsertPosition(sessions: seq<Json>, id: Option<Json>): nat {
    var i := SessionIndex(sessions, id);
    if i == -1 then |sessions| else i
  }

  /** The upsert grows the list by at most one entry, writes every field of `next` into one entry,
      keeps that entry's other fields, and leaves every other entry as it was. */
  lemma UpsertShape(sessions: seq<Json>, id: Option<Json>, next: map<string, Json>)
    ensures var r := Upsert(sessions, id, next);
            var p := UpsertPosition(sessions, id);
            && |sessions| <= |r| <= |sessions| + 1
            && (|r| == |sessions| + 1 <==> SessionIndex(sessions, id) == -1)
            && p < |r| && r[p].JObj?
            && (forall k :: k in next ==> k in r[p].fields && r[p].fields[k] == next[k])
            && (p < |sessions| && sessions[p].JObj? ==>
                  forall k :: k in sessions[p].fields && k !in next ==> k in r[p].fields && r[p].fields[k] == sessions[p].fields[k])
            && (forall j :: 0 <= j < |sessions| && j != p ==> r[j] == sessions[j])
  {
  }

  /** Entries with the id, counted. */
  function CountWithId(sessions: seq<Json>, id: Option<Json>): nat {
    if sessions == [] then 0
    else CountWithId(sessions[..|sessions| - 1], id) + (if HasId(sessions[|sessions| - 1], id) then 1 else 0)
  }

  lemma {:induction false} CountNone(sessions: seq<Json>, id: Option<Json>)
    requires forall k :: 0 <= k < |sessions| ==> !HasId(sessions[k], id)
    ensures CountWithId(sessions, id) == 0
  {
    if sessions != [] {
      CountNone(sessions[..|sessions| - 1], id);
    }
  }

  /** Replacing an entry by one that matches the id exactly when it did keeps the count. */
  lemma {:induction false} CountReplace(sessions: seq<Json>, id: Option<Json>, i: nat, x: Json)
    requires i < |sessions| && (HasId(x, id) <==> HasId(sessions[i], id))
    ensures CountWithId(sessions[i := x], id) == CountWithId(sessions, id)
  {
    var n := |sessions|;
    var r := sessions[i := x];
    if i < n - 1 {
      assert r[..n - 1] == sessions[..n - 1][i := x];
      CountReplace(sessions[..n - 1], id, i, x);
    } else {
      assert r[..n - 1] == sessions[..n - 1];
    }
  }

  lemma CountAppend(sessions: seq<Json>, id: Option<Json>, x: Json)
    ensures CountWithId(sessions + [x], id) == CountWithId(sessions, id) + (if HasId(x, id) then 1 else 0)
  {
    assert (sessions + [x])[..|sessions|] == sessions;
  }

  /** When the written fields carry the id, the list holds at least one entry with it afterwards
      and no new duplicate: exactly one if there was at most one. */
  lemma UpsertCount(sessions: seq<Json>, id: Option<Json>, next: map<string, Json>)
    requires "conversationId" in next && StrictEquals(Some(next["conversationId"]), id)
    ensures CountWithId(Upsert(sessions, id, next), id)
            == if CountWithId(sessions, id) == 0 then 1 else CountWithId(sessions, id)
  {
    var i := SessionIndex(sessions, id);
    var ok := (k: nat) => k < |sessions| && HasId(sessions[k], id);
    if i == -1 {
      Seqs.FirstIndexLeast(|sessions|, 0, ok);
      forall k | 0 <= k < |sessions|
        ensures !HasId(sessions[k], id)
      {
        assert !ok(k);
      }
      CountNone(sessions, id);
      CountAppend(sessions, id, JObj(next));
    } else {
      var x := Spread(sessions[i], next);
      assert Prop(Some(x), "conversationId") == Some(next["conversationId"]);
      CountReplace(sessions, id, i, x);
      CountPositive(sessions, id, i);
    }
  }

  lemma {:induction false} CountPositive(sessions: seq<Json>, id: Option<Json>, i: nat)
    requires i < |sessions| && HasId(sessions[i], id)
    ensures CountWithId(sessions, id) > 0
  {
    var n := |sessions|;
    if i < n - 1 {
      CountPositive(sessions[..n - 1], id, i);
    }
  }

  /** When the written fields carry the id, the upsert's entry is where a second lookup stops, and
      the entries before it are the ones the first lookup passed over. */
  lemma UpsertKeepsPosition(sessions: seq<Json>, id: Option<Json>, next: map<string, Json>)
    requires "conversationId" in next && StrictEquals(Some(next["conversationId"]), id)
    ensures var r := Upsert(sessions, id, next);
            var p := UpsertPosition(sessions, id);
            && SessionIndex(r, id) == p && r[..p] == sessions[..p]
  {
    var r := Upsert(sessions, id, next);
    var p := UpsertPosition(sessions, id);
    var okS := (k: nat) => k < |sessions| && HasId(sessions[k], id);
    var okR := (k: nat) => k < |r| && HasId(r[k], id);
    Seqs.FirstIndexLeast(|sessions|, 0, okS);
    Seqs.FirstIndexLeast(|r|, 0, okR);
    assert Prop(Some(r[p]), "conversationId") == Some(next["conversationId"]);
    assert okR(p);
    forall k | 0 <= k < p
      ensures !okR(k)
    {
      assert !okS(k);
      assert r[k] == sessions[k];
    }
  }

  /** Doing the same upsert twice is doing it once, when the written fields carry the id. */
  lemma UpsertIdempotent(sessions: seq<Json>, id: Option<Json>, next: map<string, Json>)
    requires "conversationId" in next && StrictEquals(Some(next["conversationId"]), id)
    ensures Upsert(Upsert(sessions, id, next), id, next) == Upsert(sessions, id, next)
  {
    var r := Upsert(sessions, id, next);
    var p := UpsertPosition(sessions, id);
    UpsertKeepsPosition(sessions, id, next);
    assert Prop(Some(r[p]), "conversationId") == Some(next["conversationId"]);
    assert Spread(r[p], next) == r[p];
  }

  /** The store: the three lists the routes read, change and save. */
  class Store {
    var conversations: seq<Conversation>
    var sessions: seq<Json>
    var scores: seq<ScoreRecord>

    constructor(conversations: seq<Conversation>, sessions: seq<Json>, scores: seq<ScoreRecord>)
      ensures this.conversations == conversations && this.sessions == sessions && this.scores == scores
    {
      this.conversations := conversations;
      this.sessions := sessions;
      this.scores := scores;
    }

    /** `getScores()`, `push(record)`, `saveScores(list)`: the score relay's way of keeping a record. */
    method PushScore(record: ScoreRecord)
      modifies this
      ensures scores == old(scores) + [record]
      ensures conversations == old(conversations) && sessions == old(sessions)
    {
      scores := scores + [record];
    }

    /** `touchAgentSession(conversationId, agentName, agentId, createdAt)` of the chat relay. */
    method TouchAgentSession(conversationId: string, agentName: Option<Json>, agentId: Option<Json>,
                             createdAt: int, now: int)
      modifies this
      ensures sessions == Upsert(old(sessions), Some(JStr(conversationId)), Touch(conversationId, agentName, agentId, createdAt, now))
      ensures conversations == old(conversations) && scores == old(scores)
    {
      var idx := SessionIndex(sessions, Some(JStr(conversationId)));
      var next := Touch(conversationId, agentName, agentId, createdAt, now);
      if idx == -1 {
        sessions := sessions + [JObj(next)];
      } else {
        sessions := sessions[idx := Spread(sessions[idx], next)];
      }
    }
  }

  /** The entry `touchAgentSession` writes: `createdAt` is `Number(createdAt) || now`, the agent
      fields are `String(x || '')` and `updatedAt` is `now`. */
  function Touch(conversationId: string, agentName: Option<Json>, agentId: Option<Json>,
                 createdAt: int, now: int): (next: map<string, Json>)
    ensures "conversationId" in next && StrictEquals(Some(next["conversationId"]), Some(JStr(conversationId)))
  {
    SessionFields(JStr(conversationId), if createdAt != 0 then createdAt else now,
                  StringOrEmpty(agentName), StringOrEmpty(agentId), now)
  }
}
