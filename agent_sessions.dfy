/** `/api/agent-sessions`: the session index as the sidebar lists it. `GET` indexes the stored
    entries by conversation id, adds an entry for every visible conversation that has none (and
    saves the index only then), and lists the visible conversations' entries, most recently
    updated first. `POST` writes one normalised entry. */
module AgentSessions {
  import opened Wrappers
  import opened Json
  import Seqs
  import DevAuth
  import opened Records

  // ----- the `byId` map -----

  /** A JavaScript `Map` from conversation id to entry, as its entries in insertion order. */
  type Index = seq<(string, Json)>

  /** `String(s.conversationId)`. */
  function Key(s: Json): string {
    ValueString(Prop(Some(s), "conversationId"))
  }

  function Keys(m: Index): (r: seq<string>)
    ensures |r| == |m| && forall i :: 0 <= i < |m| ==> r[i] == m[i].0
  {
    if m == [] then [] else [m[0].0] + Keys(m[1..])
  }

  function Values(m: Index): (r: seq<Json>)
    ensures |r| == |m| && forall i :: 0 <= i < |m| ==> r[i] == m[i].1
  {
    seq(|m|, i requires 0 <= i < |m| => m[i].1)
  }

  /** `map.set(k, v)`: the slot of `k` keeps its place and takes `v`; a new key goes last. */
  function Put(m: Index, k: string, v: Json): (r: Index)
    ensures |m| <= |r| <= |m| + 1
  {
    if m == [] then [(k, v)]
    else if m[0].0 == k then [(k, v)] + m[1..]
    else [m[0]] + Put(m[1..], k, v)
  }

  /** Every key once, and every entry filed under its own `String(conversationId)`. */
  predicate WellKeyed(m: Index) {
    DistinctKeys(m) && Filed(m)
  }

  predicate DistinctKeys(m: Index) {
    forall i, j :: 0 <= i < j < |m| ==> m[i].0 != m[j].0
  }

  predicate Filed(m: Index) {
    forall i :: 0 <= i < |m| ==> Key(m[i].1) == m[i].0
  }

  /** `set` adds `k` to the keys when it is new and otherwise keeps them. */
  lemma {:induction false} PutKeys(m: Index, k: string, v: Json)
    ensures Keys(Put(m, k, v)) == if k in Keys(m) then Keys(m) else Keys(m) + [k]
  {
    if m != [] && m[0].0 != k {
      PutKeys(m[1..], k, v);
      assert Put(m, k, v) == [m[0]] + Put(m[1..], k, v);
    }
  }

  /** Every slot of the result is an old slot or `(k, v)`, the latter among them, and slots under
      other keys keep their place. */
  lemma {:induction false} PutSlots(m: Index, k: string, v: Json)
    ensures (k, v) in Put(m, k, v)
    ensures forall e :: e in Put(m, k, v) ==> e in m || e == (k, v)
    ensures forall i :: 0 <= i < |m| && m[i].0 != k ==> Put(m, k, v)[i] == m[i]
  {
    if m != [] && m[0].0 != k {
      PutSlots(m[1..], k, v);
      var r := Put(m, k, v);
      assert r == [m[0]] + Put(m[1..], k, v);
      forall e | e in r ensures e in m || e == (k, v) {
        if e != m[0] && e != (k, v) {
          assert e in Put(m[1..], k, v);
          Seqs.InSlice(e, m, 1, |m|);
        }
      }
      forall i | 0 <= i < |m| && m[i].0 != k ensures r[i] == m[i] {
        if i > 0 { assert m[1..][i - 1] == m[i]; }
      }
    }
  }

  /** `set` keeps the map well keyed. */
  lemma PutKeeps(m: Index, k: string, v: Json)
    requires WellKeyed(m) && Key(v) == k
    ensures WellKeyed(Put(m, k, v))
  {
    PutDistinct(m, k, v);
    PutFiled(m, k, v);
  }

  lemma PutDistinct(m: Index, k: string, v: Json)
    requires DistinctKeys(m)
    ensures DistinctKeys(Put(m, k, v))
  {
    var r := Put(m, k, v);
    var ks := Keys(r);
    PutKeys(m, k, v);
    forall i, j | 0 <= i < j < |r| ensures r[i].0 != r[j].0 {
      assert ks[i] == r[i].0 && ks[j] == r[j].0;
      if j < |m| {
        assert Keys(m)[i] == ks[i] && Keys(m)[j] == ks[j];
      } else {
        assert Keys(m)[i] == ks[i] && ks[j] == k && k !in Keys(m);
      }
    }
  }

  lemma PutFiled(m: Index, k: string, v: Json)
    requires Filed(m) && Key(v) == k
    ensures Filed(Put(m, k, v))
  {
    var r := Put(m, k, v);
    PutSlots(m, k, v);
    forall i | 0 <= i < |r| ensures Key(r[i].1) == r[i].0 {
      assert r[i] in r;
    }
  }

  /** `new Map(sessions.map(s => [String(s.conversationId), s]))`: later entries with the same key
      overwrite earlier ones in the earlier slot. */
  function FromSessions(sessions: seq<Json>): Index {
    if sessions == [] then []
    else
      var last := sessions[|sessions| - 1];
      Put(FromSessions(sessions[..|sessions| - 1]), Key(last), last)
  }

  /** The index is well keyed, and its keys are exactly the entries' keys. */
  lemma {:induction false} FromSessionsKeyed(sessions: seq<Json>)
    ensures WellKeyed(FromSessions(sessions))
    ensures forall k :: k in Keys(FromSessions(sessions)) <==> exists s :: s in sessions && Key(s) == k
  {
    if sessions != [] {
      var n := |sessions|;
      var last := sessions[n - 1];
      var prefix := sessions[..n - 1];
      var m0 := FromSessions(prefix);
      FromSessionsKeyed(prefix);
      assert FromSessions(sessions) == Put(m0, Key(last), last);
      PutKeeps(m0, Key(last), last);
      PutKeys(m0, Key(last), last);
      LastSplit(sessions);
      forall k | k in Keys(FromSessions(sessions)) ensures exists s :: s in sessions && Key(s) == k {
        if k != Key(last) {
          var s :| s in prefix && Key(s) == k;
          assert s in sessions;
        } else {
          assert last in sessions;
        }
      }
      forall k | exists s :: s in sessions && Key(s) == k ensures k in Keys(FromSessions(sessions)) {
        var s :| s in sessions && Key(s) == k;
        if s != last {
          assert s in prefix;
        }
      }
    }
  }

  // ----- completing the index -----

  /** The entry `GET` writes for a conversation that has none. */
  function Synthesized(c: Conversation, now: int): Json {
    JObj(SessionFields(JStr(c.id),
                       if c.createdAt != 0 then c.createdAt else now,
                       StringOrEmpty(c.agentName), StringOrEmpty(c.agentId),
                       if c.updatedAt != 0 then c.updatedAt else if c.createdAt != 0 then c.createdAt else now))
  }

  lemma SynthesizedKey(c: Conversation, now: int)
    ensures Key(Synthesized(c, now)) == c.id
  {
    assert Prop(Some(Synthesized(c, now)), "conversationId") == Some(JStr(c.id));
  }

  /** The index after the loop over the visible conversations: each one whose id is missing gets
      a synthesized entry at the end. */
  function Completed(m: Index, convs: seq<Conversation>, now: int): Index {
    if convs == [] then m
    else
      var m0 := Completed(m, convs[..|convs| - 1], now);
      var c := convs[|convs| - 1];
      if c.id in Keys(m0) then m0 else m0 + [(c.id, Synthesized(c, now))]
  }

  /** Completing only appends. */
  lemma {:induction false} CompletedAppends(m: Index, convs: seq<Conversation>, now: int)
    ensures var r := Completed(m, convs, now);
            |r| >= |m| && r[..|m|] == m
  {
    if convs != [] {
      var m0 := Completed(m, convs[..|convs| - 1], now);
      CompletedAppends(m, convs[..|convs| - 1], now);
      var r := Completed(m, convs, now);
      assert r == m0 || r == m0 + [(convs[|convs| - 1].id, Synthesized(convs[|convs| - 1], now))];
      assert r[..|m|] == m0[..|m|];
    }
  }

  /** Afterwards the keys are the old ones and the conversations' ids. */
  lemma {:induction false} CompletedKeys(m: Index, convs: seq<Conversation>, now: int)
    ensures forall k :: k in Keys(Completed(m, convs, now)) <==> k in Keys(m) || exists c :: c in convs && c.id == k
  {
    if convs != [] {
      var n := |convs|;
      var prefix := convs[..n - 1];
      var c := convs[n - 1];
      CompletedKeys(m, prefix, now);
      assert convs == prefix + [c];
      var m0 := Completed(m, prefix, now);
      if c.id !in Keys(m0) {
        assert Keys(m0 + [(c.id, Synthesized(c, now))]) == Keys(m0) + [c.id];
      }
    }
  }

  /** Completing adds entries exactly when some conversation had none. */
  lemma {:induction false} CompletedGrows(m: Index, convs: seq<Conversation>, now: int)
    ensures |Completed(m, convs, now)| > |m| <==> exists c :: c in convs && c.id !in Keys(m)
  {
    if convs != [] {
      var n := |convs|;
      var prefix := convs[..n - 1];
      var c := convs[n - 1];
      CompletedGrows(m, prefix, now);
      CompletedKeys(m, prefix, now);
      CompletedAppends(m, prefix, now);
      LastSplit(convs);
      var m0 := Completed(m, prefix, now);
      if c.id in Keys(m0) {
        assert Completed(m, convs, now) == m0;
        if c.id !in Keys(m) {
          var d :| d in prefix && d.id == c.id;
          assert d in convs && d.id !in Keys(m);
        }
      } else {
        assert |Completed(m, convs, now)| == |m0| + 1;
        assert c in convs && c.id !in Keys(m);
      }
    }
  }

  /** Appending an entry under a new key, filed under its own id, keeps the map well keyed. */
  lemma AppendKeeps(m: Index, k: string, v: Json)
    requires WellKeyed(m) && k !in Keys(m) && Key(v) == k
    ensures WellKeyed(m + [(k, v)])
  {
    var r := m + [(k, v)];
    forall i, j | 0 <= i < j < |r| ensures r[i].0 != r[j].0 {
      if j == |m| {
        assert Keys(m)[i] == r[i].0;
      } else {
        assert r[i] == m[i] && r[j] == m[j];
      }
    }
    forall i | 0 <= i < |r| ensures Key(r[i].1) == r[i].0 {
      if i < |m| {
        assert r[i] == m[i];
      }
    }
  }

  lemma LastSplit<T>(s: seq<T>)
    requires s != []
    ensures forall x :: x in s <==> x in s[..|s| - 1] || x == s[|s| - 1]
  {
    assert s == s[..|s| - 1] + [s[|s| - 1]];
  }

  /** Completing keeps the index well keyed. */
  lemma {:induction false} CompletedKeyed(m: Index, convs: seq<Conversation>, now: int)
    requires WellKeyed(m)
    ensures WellKeyed(Completed(m, convs, now))
  {
    if convs != [] {
      var n := |convs|;
      var c := convs[n - 1];
      CompletedKeyed(m, convs[..n - 1], now);
      var m0 := Completed(m, convs[..n - 1], now);
      if c.id !in Keys(m0) {
        SynthesizedKey(c, now);
        AppendKeeps(m0, c.id, Synthesized(c, now));
      }
    }
  }

  /** The loop of `GET`: `byId.set` for every conversation whose id is missing, and whether any was. */
  method Complete(byId: Index, convs: seq<Conversation>, now: int) returns (m: Index, changed: bool)
    ensures m == Completed(byId, convs, now)
    ensures changed <==> |m| > |byId|
  {
    m := byId;
    changed := false;
    for i := 0 to |convs|
      invariant m == Completed(byId, convs[..i], now)
      invariant changed <==> |m| > |byId|
      invariant |m| >= |byId|
    {
      assert convs[..i + 1][..i] == convs[..i];
      var c := convs[i];
      if c.id !in Keys(m) {
        m := m + [(c.id, Synthesized(c, now))];
        changed := true;
      }
    }
    assert convs[..|convs|] == convs;
  }

  // ----- ordering -----

  /** `s.updatedAt || 0`, as the comparator reads it. */
  function Rank(s: Json): int {
    NumberOr(Prop(Some(s), "updatedAt"), 0)
  }

  predicate SortedDesc<T>(s: seq<T>, rank: T -> int) {
    forall i, j :: 0 <= i < j < |s| ==> rank(s[i]) >= rank(s[j])
  }

  /** Places `x` before the first element ranked no higher: an earlier element stays ahead of a
      later one of equal rank. */
  function Insert<T>(x: T, s: seq<T>, rank: T -> int): seq<T> {
    if s == [] || rank(s[0]) <= rank(x) then [x] + s else [s[0]] + Insert(x, s[1..], rank)
  }

  /** A stable sort on `rank`, highest first: `.sort((a, b) => rank(b) - rank(a))`. */
  function SortDesc<T>(s: seq<T>, rank: T -> int): seq<T> {
    if s == [] then [] else Insert(s[0], SortDesc(s[1..], rank), rank)
  }

  /** Inserting adds exactly `x`. */
  lemma {:induction false} InsertPerm<T>(x: T, s: seq<T>, rank: T -> int)
    ensures multiset(Insert(x, s, rank)) == multiset(s) + multiset{x}
  {
    if s != [] && rank(s[0]) > rank(x) {
      InsertPerm(x, s[1..], rank);
      assert s == [s[0]] + s[1..];
    }
  }

  lemma {:induction false} InsertSorted<T>(x: T, s: seq<T>, rank: T -> int)
    requires SortedDesc(s, rank)
    ensures SortedDesc(Insert(x, s, rank), rank)
  {
    if s != [] && rank(s[0]) > rank(x) {
      var t := s[1..];
      assert SortedDesc(t, rank) by {
        forall i, j | 0 <= i < j < |t| ensures rank(t[i]) >= rank(t[j]) { assert t[i] == s[i + 1] && t[j] == s[j + 1]; }
      }
      InsertSorted(x, t, rank);
      InsertPerm(x, t, rank);
      var u := Insert(x, t, rank);
      var r := [s[0]] + u;
      assert Insert(x, s, rank) == r;
      forall j | 0 <= j < |u| ensures rank(s[0]) >= rank(u[j]) {
        assert u[j] in multiset(u);
        if u[j] != x {
          assert u[j] in multiset(t);
          var k :| 0 <= k < |t| && t[k] == u[j];
          assert t[k] == s[k + 1];
        }
      }
      forall i, j | 0 <= i < j < |r| ensures rank(r[i]) >= rank(r[j]) {
        assert r[j] == u[j - 1];
        if i > 0 { assert r[i] == u[i - 1]; }
      }
    }
  }

  /** The sort orders by rank, highest first, and is a permutation. */
  lemma {:induction false} SortDescSorted<T>(s: seq<T>, rank: T -> int)
    ensures SortedDesc(SortDesc(s, rank), rank) && multiset(SortDesc(s, rank)) == multiset(s)
  {
    if s != [] {
      SortDescSorted(s[1..], rank);
      InsertSorted(s[0], SortDesc(s[1..], rank), rank);
      InsertPerm(s[0], SortDesc(s[1..], rank), rank);
      assert s == [s[0]] + s[1..];
    }
  }

  /** Inserting `x` keeps the order of the elements `p` selects, when `p` selects only elements of
      one rank `v`: those ranked above `x` are passed over, and `x` goes before the rest. */
  lemma {:induction false} InsertStable<T>(x: T, s: seq<T>, rank: T -> int, p: T -> bool, v: int)
    requires forall y :: p(y) ==> rank(y) == v
    ensures Seqs.Filter(Insert(x, s, rank), p) == (if p(x) then [x] else []) + Seqs.Filter(s, p)
  {
    if s != [] && rank(s[0]) > rank(x) {
      InsertStable(x, s[1..], rank, p, v);
      if p(s[0]) {
        assert !p(x);
      }
      assert Seqs.Filter(Insert(x, s, rank), p)
          == (if p(s[0]) then [s[0]] else []) + Seqs.Filter(Insert(x, s[1..], rank), p);
    } else {
      assert Insert(x, s, rank) == [x] + s;
      assert ([x] + s)[1..] == s;
    }
  }

  /** The sort is stable: among the elements of one rank, any selection keeps its order, as
      `Array.prototype.sort` guarantees. */
  lemma {:induction false} SortStable<T>(s: seq<T>, rank: T -> int, p: T -> bool, v: int)
    requires forall y :: p(y) ==> rank(y) == v
    ensures Seqs.Filter(SortDesc(s, rank), p) == Seqs.Filter(s, p)
  {
    if s != [] {
      SortStable(s[1..], rank, p, v);
      InsertStable(s[0], SortDesc(s[1..], rank), rank, p, v);
    }
  }

  // ----- GET -----

  datatype ListResponse = ListRefused(status: int, error: string) | Listed(entries: seq<Json>)

  /** The conversations the caller sees: every one in bypass mode, otherwise their own. */
  function Visible(convs: seq<Conversation>, r: DevAuth.Resolved): seq<Conversation>
    requires r.sid.Some?
  {
    if r.bypass then convs else Seqs.Filter(convs, (c: Conversation) => c.userId == r.sid.value)
  }

  function Ids(convs: seq<Conversation>): seq<string> {
    Seqs.Map(convs, (c: Conversation) => c.id)
  }

  /** `x && typeof x === 'object'` for a stored entry: an object or an array (`null` is falsy). */
  predicate IsObject(x: Json) {
    x.JObj? || x.JArr?
  }

  /** `byId`: the index of the stored entries that are objects or arrays. An array has no
      `conversationId`, so it is filed under `"undefined"`. */
  function Stored(sessions: seq<Json>): Index {
    FromSessions(Seqs.Filter(sessions, IsObject))
  }

  /** The visible conversations' entries of an index, most recently updated first. */
  function Listing(all: Index, visible: seq<Conversation>): seq<Json> {
    var ids := Ids(visible);
    SortDesc(Seqs.Filter(Values(all), (s: Json) => Key(s) in ids), Rank)
  }

  /** One `GET`: the stored session index afterwards and the response. */
  function List(env: DevAuth.Env, cookie: Option<string>, convs: seq<Conversation>, sessions: seq<Json>, now: int)
    : (seq<Json>, ListResponse)
  {
    var r := DevAuth.ResolveSid(env, cookie);
    if r.sid.None? then (sessions, ListRefused(401, "未登录"))
    else
      var visible := Visible(convs, r);
      var all := Completed(Stored(sessions), visible, now);
      (if |all| > |Stored(sessions)| then Values(all) else sessions, Listed(Listing(all, visible)))
  }

  /** The listing is sorted, most recently updated first, and is a permutation of the visible
      conversations' entries. */
  lemma ListingSorted(all: Index, visible: seq<Conversation>)
    ensures SortedDesc(Listing(all, visible), Rank)
    ensures forall s :: s in Listing(all, visible) <==> s in Values(all) && Key(s) in Ids(visible)
  {
    var ids := Ids(visible);
    var p := (s: Json) => Key(s) in ids;
    var kept := Seqs.Filter(Values(all), p);
    Seqs.FilterMembers(Values(all), p);
    SortDescSorted(kept, Rank);
    forall s ensures s in Listing(all, visible) <==> s in kept {
      assert s in Listing(all, visible) <==> s in multiset(Listing(all, visible));
    }
  }

  /** The listing holds an entry for every visible conversation and only for visible ones. */
  lemma ListingShape(all: Index, visible: seq<Conversation>)
    requires WellKeyed(all) && forall c :: c in visible ==> c.id in Keys(all)
    ensures var entries := Listing(all, visible);
            && (forall c :: c in visible ==> exists s :: s in entries && Key(s) == c.id)
            && (forall s :: s in entries ==> exists c :: c in visible && Key(s) == c.id)
  {
    var ids := Ids(visible);
    var entries := Listing(all, visible);
    ListingSorted(all, visible);
    forall c | c in visible ensures exists s :: s in entries && Key(s) == c.id {
      var i :| 0 <= i < |all| && all[i].0 == c.id;
      assert Values(all)[i] == all[i].1;
      var k :| 0 <= k < |visible| && visible[k] == c;
      assert ids[k] == c.id;
      assert Key(all[i].1) == c.id;
      assert all[i].1 in entries;
    }
    forall s | s in entries ensures exists c :: c in visible && Key(s) == c.id {
      var k :| 0 <= k < |ids| && ids[k] == Key(s);
      assert visible[k] in visible;
    }
  }

  /** The saved index is well keyed and keeps every stored object entry's key. */
  lemma SavedShape(sessions: seq<Json>, visible: seq<Conversation>, now: int)
    ensures var all := Completed(Stored(sessions), visible, now);
            && WellKeyed(all)
            && forall s :: s in sessions && IsObject(s) ==> Key(s) in Keys(all)
  {
    var objs := Seqs.Filter(sessions, IsObject);
    var byId := Stored(sessions);
    var all := Completed(byId, visible, now);
    FromSessionsKeyed(objs);
    CompletedKeyed(byId, visible, now);
    CompletedKeys(byId, visible, now);
    Seqs.FilterMembers(sessions, IsObject);
    forall s | s in sessions && IsObject(s) ensures Key(s) in Keys(all) {
      assert s in objs;
    }
  }

  /** A caller with no session is refused, and nothing is saved. */
  lemma ListRefusal(env: DevAuth.Env, cookie: Option<string>, convs: seq<Conversation>, sessions: seq<Json>, now: int)
    ensures List(env, cookie, convs, sessions, now).1.ListRefused?
            <==> DevAuth.ResolveSid(env, cookie).sid.None?
    ensures List(env, cookie, convs, sessions, now).1.ListRefused? ==> List(env, cookie, convs, sessions, now).0 == sessions
  {
  }

  /** A caller with a session gets the listing of the completed index, which therefore covers
      every visible conversation (`ListingShape`). The index is saved exactly when a visible
      conversation had no entry, and then it is well keyed and keeps every stored entry's key. */
  lemma ListShape(env: DevAuth.Env, cookie: Option<string>, convs: seq<Conversation>, sessions: seq<Json>, now: int,
                  visible: seq<Conversation>)
    requires DevAuth.ResolveSid(env, cookie).sid.Some?
    requires visible == Visible(convs, DevAuth.ResolveSid(env, cookie))
    ensures var all := Completed(Stored(sessions), visible, now);
            && List(env, cookie, convs, sessions, now).1 == Listed(Listing(all, visible))
            && List(env, cookie, convs, sessions, now).0
               == (if exists c :: c in visible && c.id !in Keys(Stored(sessions)) then Values(all) else sessions)
            && WellKeyed(all)
            && (forall c :: c in visible ==> c.id in Keys(all))
            && (forall s :: s in sessions && IsObject(s) ==> Key(s) in Keys(all))
  {
    var byId := Stored(sessions);
    var all := Completed(byId, visible, now);
    CompletedKeys(byId, visible, now);
    SavedShape(sessions, visible, now);
    CompletedGrows(byId, visible, now);
    assert List(env, cookie, convs, sessions, now)
           == (if |all| > |byId| then Values(all) else sessions, Listed(Listing(all, visible)));
  }

  /** The route's `GET`. */
  method Get(store: Store, env: DevAuth.Env, cookie: Option<string>, now: int) returns (resp: ListResponse)
    modifies store
    ensures (store.sessions, resp) == List(env, cookie, old(store.conversations), old(store.sessions), now)
    ensures store.conversations == old(store.conversations) && store.scores == old(store.scores)
  {
    var r := DevAuth.ResolveSid(env, cookie);
    if r.sid.None? {
      return ListRefused(401, "未登录");
    }
    var visible := Visible(store.conversations, r);
    var all, changed := Complete(Stored(store.sessions), visible, now);
    if changed {
      store.sessions := Values(all);
    }
    resp := Listed(Listing(all, visible));
  }
  // ----- POST -----

  /** A refusal, the entry written, or the `TypeError` the lookup throws (a 500 from the
      framework). */
  datatype PatchResponse = PatchRefused(status: int, error: string) | Patched(entry: Json) | PatchThrew

  /** The normalised entry `next` built from the request body. */
  function Normalized(item: Json, now: int): map<string, Json> {
    SessionFields(JStr(ValueString(Prop(Some(item), "conversationId"))),
                  NumberOr(Prop(Some(item), "createdAt"), now),
                  StringOrEmpty(Prop(Some(item), "agentName")), StringOrEmpty(Prop(Some(item), "agentId")),
                  NumberOr(Prop(Some(item), "updatedAt"), now))
  }

  /** The refusals of `POST`: no session, then no (truthy) `conversationId`. */
  function PatchRefusal(sid: Option<string>, item: Json): Option<PatchResponse> {
    if sid.None? then Some(PatchRefused(401, "未登录"))
    else if !Truthy(Prop(Some(item), "conversationId")) then Some(PatchRefused(400, "缺少会话id"))
    else None
  }

  /** `all.findIndex(x => x.conversationId === id)` reads `conversationId` of every entry up to
      the match (or of all of them), and reading it from a `null` entry throws. */
  predicate LookupThrows(sessions: seq<Json>, id: Option<Json>) {
    JNull in sessions[..UpsertPosition(sessions, id)]
  }

  /** `POST` as written: the entry is looked up by the raw `item.conversationId` but written with
      `String(item.conversationId)`. */
  function PatchAsWritten(sessions: seq<Json>, sid: Option<string>, item: Json, now: int): (seq<Json>, PatchResponse) {
    match PatchRefusal(sid, item)
    case Some(refused) => (sessions, refused)
    case None =>
      var id := Prop(Some(item), "conversationId");
      if LookupThrows(sessions, id) then (sessions, PatchThrew)
      else
        var next := Normalized(item, now);
        (Upsert(sessions, id, next), Patched(JObj(next)))
  }

  /** A numeric `conversationId` never finds the entry it wrote: the same request twice leaves two
      entries for conversation `"5"`. */
  lemma PatchAsWrittenDuplicates()
    ensures var item := JObj(map["conversationId" := JNum(5)]);
            var once := PatchAsWritten([], Some("u"), item, 1).0;
            var twice := PatchAsWritten(once, Some("u"), item, 1).0;
            && |twice| == 2
            && twice[0] == twice[1] && HasId(twice[0], Some(JStr("5")))
  {
    var item := JObj(map["conversationId" := JNum(5)]);
    var id := Prop(Some(item), "conversationId");
    assert id == Some(JNum(5));
    assert ValueString(id) == "5";
    var next := Normalized(item, 1);
    assert next["conversationId"] == JStr("5");
    var once := Upsert([], id, next);
    assert once == [JObj(next)];
    assert !HasId(once[0], id);
    var ok := (k: nat) => k < |once| && HasId(once[k], id);
    assert !ok(0);
    assert SessionIndex(once, id) == -1;
    assert once[..UpsertPosition(once, id)] == once;
    assert Prop(Some(JObj(next)), "conversationId") == Some(JStr("5"));
  }

  /** `POST` as intended: the entry is looked up by the same `String(item.conversationId)` it is
      written under. */
  function Patch(sessions: seq<Json>, sid: Option<string>, item: Json, now: int): (seq<Json>, PatchResponse) {
    match PatchRefusal(sid, item)
    case Some(refused) => (sessions, refused)
    case None =>
      var id := Some(JStr(ValueString(Prop(Some(item), "conversationId"))));
      if LookupThrows(sessions, id) then (sessions, PatchThrew)
      else
        var next := Normalized(item, now);
        (Upsert(sessions, id, next), Patched(JObj(next)))
  }

  /** Repeating a request changes nothing more, the entry is left the only one with its id when
      it was, and every field of the response is written into it. The lookup throws, changing
      nothing, exactly when a `null` entry comes before the entry with the id. */
  lemma PatchIdempotent(sessions: seq<Json>, sid: Option<string>, item: Json, now: int)
    ensures var r := Patch(sessions, sid, item, now);
            var once := r.0;
            var resp := r.1;
            && (resp.PatchRefused? <==> PatchRefusal(sid, item).Some?)
            && (resp.PatchRefused? ==> once == sessions)
            && (resp.PatchThrew? <==> PatchRefusal(sid, item).None?
                                      && LookupThrows(sessions, Some(JStr(ValueString(Prop(Some(item), "conversationId"))))))
            && (resp.PatchThrew? ==> once == sessions)
            && Patch(once, sid, item, now).0 == once
            && (resp.Patched? ==>
                  var id := Some(JStr(ValueString(Prop(Some(item), "conversationId"))));
                  && CountWithId(once, id) == (if CountWithId(sessions, id) == 0 then 1 else CountWithId(sessions, id))
                  && resp.entry.JObj?
                  && exists j :: 0 <= j < |once| && once[j].JObj? && resp.entry.fields.Keys <= once[j].fields.Keys
                       && forall k :: k in resp.entry.fields ==> once[j].fields[k] == resp.entry.fields[k])
  {
    var id := Some(JStr(ValueString(Prop(Some(item), "conversationId"))));
    if PatchRefusal(sid, item).None? && !LookupThrows(sessions, id) {
      var next := Normalized(item, now);
      NormalizedId(item, now);
      var once := Upsert(sessions, id, next);
      assert Patch(sessions, sid, item, now) == (once, Patched(JObj(next)));
      UpsertKeepsPosition(sessions, id, next);
      assert !LookupThrows(once, id);
      assert Patch(once, sid, item, now).0 == Upsert(once, id, next);
      UpsertIdempotent(sessions, id, next);
      UpsertCount(sessions, id, next);
      UpsertShape(sessions, id, next);
      var p := UpsertPosition(sessions, id);
      assert 0 <= p < |once| && once[p].JObj? && next.Keys <= once[p].fields.Keys
             && forall k :: k in next ==> once[p].fields[k] == next[k];
    }
  }

  /** A `null` entry ahead of the one posted makes the lookup throw, where `touchAgentSession`'s
      `s?.conversationId` passes over it: the index is left as it was. */
  lemma NullEntryThrows()
    ensures var item := JObj(map["conversationId" := JStr("c1")]);
            && Patch([JNull], Some("u"), item, 1) == ([JNull], PatchThrew)
            && PatchAsWritten([JNull], Some("u"), item, 1) == ([JNull], PatchThrew)
  {
    var item := JObj(map["conversationId" := JStr("c1")]);
    var id := Some(JStr("c1"));
    assert Prop(Some(item), "conversationId") == id;
    assert !HasId(JNull, id);
    var ok := (k: nat) => k < 1 && HasId([JNull][k], id);
    assert !ok(0);
    assert SessionIndex([JNull], id) == -1;
    assert LookupThrows([JNull], id);
  }

  /** The normalised entry carries `String(item.conversationId)`. */
  lemma NormalizedId(item: Json, now: int)
    ensures var next := Normalized(item, now);
            var id := Some(JStr(ValueString(Prop(Some(item), "conversationId"))));
            "conversationId" in next && StrictEquals(Some(next["conversationId"]), id)
  {
    var id := JStr(ValueString(Prop(Some(item), "conversationId")));
    SessionFieldsId(id, NumberOr(Prop(Some(item), "createdAt"), now),
                    StringOrEmpty(Prop(Some(item), "agentName")), StringOrEmpty(Prop(Some(item), "agentId")),
                    NumberOr(Prop(Some(item), "updatedAt"), now));
  }

  /** The route's `POST`, with the lookup corrected. */
  method Post(store: Store, env: DevAuth.Env, cookie: Option<string>, item: Json, now: int) returns (resp: PatchResponse)
    modifies store
    ensures (store.sessions, resp) == Patch(old(store.sessions), DevAuth.ResolveSid(env, cookie).sid, item, now)
    ensures store.conversations == old(store.conversations) && store.scores == old(store.scores)
  {
    var sid := DevAuth.ResolveSid(env, cookie).sid;
    var refusal := PatchRefusal(sid, item);
    if refusal.Some? {
      return refusal.value;
    }
    var id := Some(JStr(ValueString(Prop(Some(item), "conversationId"))));
    if LookupThrows(store.sessions, id) {
      return PatchThrew;
    }
    var next := Normalized(item, now);
    store.sessions := Upsert(store.sessions, id, next);
    resp := Patched(JObj(next));
  }
}
