/** `GET /api/scores/generate`: the keyword-coverage score written straight into the score list,
    followed by a redirect. The cookie, the `convId` query parameter, the record id and the clock
    are inputs. */
module ScoresGenerate {
  import opened Wrappers
  import opened Json
  import DevAuth
  import KeywordScore
  import opened Records

  /** Where the route redirects. */
  datatype Redirect = ToLogin | ToChat | ToScores

  /** `searchParams.get('convId')`: a string, or `null` when absent. */
  function QueryValue(convId: Option<string>): Option<Json> {
    if convId.Some? then Some(JStr(convId.value)) else Some(JNull)
  }

  /** The record `list.push` appends: no `mode`, eight keywords in total. */
  function Record(conv: Conversation, sid: string, convId: string, scoreId: string, now: int): ScoreRecord {
    var covered := KeywordScore.Covered(KeywordScore.Transcript(conv.messages));
    KeywordScore(scoreId, sid, convId, None, KeywordScore.Percent(covered), covered, |KeywordScore.Keywords|, now)
  }

  /** One request: the new score list and the redirect. */
  function Handle(convs: seq<Conversation>, scores: seq<ScoreRecord>, cookie: Option<string>, convId: Option<string>,
                  scoreId: string, now: int): (seq<ScoreRecord>, Redirect)
  {
    var sid := DevAuth.Sid(cookie);
    if sid.None? then (scores, ToLogin)
    else
      var i := OwnedIndex(convs, QueryValue(convId), sid.value);
      if i == -1 then (scores, ToChat)
      else (scores + [Record(convs[i], sid.value, convId.value, scoreId, now)], ToScores)
  }

  /** A redirect to `/login` or `/chat` adds nothing; a redirect to `/scores` follows exactly one
      new record, for the caller's own conversation, with `total = 8`, `0 <= covered <= 8` and a
      score in 0..100. */
  lemma OneRecordOrNone(convs: seq<Conversation>, scores: seq<ScoreRecord>, cookie: Option<string>,
                        convId: Option<string>, scoreId: string, now: int)
    ensures var (scores1, to) := Handle(convs, scores, cookie, convId, scoreId, now);
            && (DevAuth.Sid(cookie).None? <==> to == ToLogin)
            && (to != ToScores ==> scores1 == scores)
            && (to == ToScores ==>
                  && convId.Some? && |scores1| == |scores| + 1 && scores1[..|scores|] == scores
                  && var r := scores1[|scores|];
                  && r.KeywordScore? && r.mode.None? && r.total == 8 && r.covered <= 8 && 0 <= r.score <= 100
                  && r.id == scoreId && r.userId == DevAuth.Sid(cookie).value && r.convId == convId.value
                  && exists i :: 0 <= i < |convs| && convs[i].id == convId.value && convs[i].userId == r.userId)
  {
    var (scores1, to) := Handle(convs, scores, cookie, convId, scoreId, now);
    if to == ToScores {
      assert scores1[..|scores|] == scores;
      var i := OwnedIndex(convs, QueryValue(convId), DevAuth.Sid(cookie).value);
      var r := scores1[|scores|];
      KeywordScore.PercentRange(r.covered, r.covered);
      StrictEqualsEqual(Some(JStr(convs[i].id)), QueryValue(convId));
    }
  }

  /** The score written here is the one the score relay falls back to, without the mode. */
  lemma SameAsFallback(conv: Conversation, sid: string, convId: string, scoreId: string, now: int)
    ensures var f := KeywordScore.FallbackRecord(conv, sid, convId, scoreId, now);
            f.KeywordScore? && Record(conv, sid, convId, scoreId, now) == f.(mode := None)
  {
  }

  /** The route handler: it appends to the score list in the store. */
  method Get(store: Store, cookie: Option<string>, convId: Option<string>, scoreId: string, now: int)
    returns (to: Redirect)
    modifies store
    ensures (store.scores, to) == Handle(store.conversations, old(store.scores), cookie, convId, scoreId, now)
    ensures store.conversations == old(store.conversations) && store.sessions == old(store.sessions)
  {
    var sid := DevAuth.Sid(cookie);
    if sid.None? {
      return ToLogin;
    }
    var i := OwnedIndex(store.conversations, QueryValue(convId), sid.value);
    if i == -1 {
      return ToChat;
    }
    var record := Record(store.conversations[i], sid.value, convId.value, scoreId, now);
    store.scores := store.scores + [record];
    to := ToScores;
  }
}
