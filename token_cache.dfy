/** The module-level access-token caches of the routes that call the assistant API. The chat relay
    and the score relay share one rule (`getAccessToken` in both stream routes); the prompt-suggestion
    route has its own variant. The clock and the `get_token` reply are inputs: the reply is what the
    server would answer if asked, and the outcome says whether it was asked. */
module TokenCache {
  import opened Wrappers
  import opened Json
  import Strings

  /** What `POST /get_token` answers: `res.ok`, `res.status`, the body text, the body decoded as
      JSON (`None` when it is not JSON) and the message of the `SyntaxError` that `res.json()`
      raises in that case. */
  datatype TokenReply = TokenReply(ok: bool, status: int, text: string, body: Option<Json>, syntaxError: string)

  /** `cachedToken` (initially `null`) and `cachedTokenExpiresAt` (initially 0), in milliseconds. */
  datatype CacheState = CacheState(token: Json, expiresAt: int)

  const InitialCache: CacheState := CacheState(JNull, 0)

  /** The cached token came back without a fetch, a fetched token was stored, or the function threw
      an `Error` with this message. */
  datatype TokenOutcome = Reused(token: Json) | Fetched(token: Json) | Failed(message: string)

  /** `new Error(v || fallback).message`. */
  function ErrorMessage(v: Option<Json>, fallback: string): (m: string)
    ensures !Truthy(v) ==> m == fallback
  {
    if Truthy(v) then ValueString(v) else fallback
  }

  /** The relay reuse rule: a token is cached and more than a minute is left before it expires. */
  predicate RelayReusable(c: CacheState, now: int) {
    Truthy(Some(c.token)) && now < c.expiresAt - 60000
  }

  /** `data?.result?.access_token ?? data?.access_token`. */
  function RelayTokenField(data: Option<Json>): Option<Json> {
    Coalesce(Prop(Prop(data, "result"), "access_token"), Prop(data, "access_token"))
  }

  /** `data?.result?.expires_in ?? data?.expires_in`. */
  function RelayExpiresField(data: Option<Json>): Option<Json> {
    Coalesce(Prop(Prop(data, "result"), "expires_in"), Prop(data, "expires_in"))
  }

  /** One call of the relays' `getAccessToken`: the new cache and the outcome. */
  function RelayTokenStep(c: CacheState, now: int, reply: TokenReply): (r: (CacheState, TokenOutcome))
    ensures r.1.Reused? <==> RelayReusable(c, now)
    ensures r.1.Reused? ==> r.0 == c && r.1.token == c.token
    ensures r.1.Failed? ==> r.0 == c
    ensures r.1.Fetched? ==> reply.ok && reply.body.Some? && !RelayReusable(c, now)
    ensures r.1.Fetched? ==> Truthy(Some(r.1.token)) && r.0.token == r.1.token
    ensures r.1.Fetched? ==> r.0.expiresAt == now + NumberOr(RelayExpiresField(reply.body), 0) * 1000
    ensures r.1.Fetched? && !IsNullish(Prop(Prop(reply.body, "result"), "access_token"))
            ==> Some(r.1.token) == Prop(Prop(reply.body, "result"), "access_token")
    ensures !RelayReusable(c, now) && !reply.ok ==> r.1.Failed?
  {
    if RelayReusable(c, now) then (c, Reused(c.token))
    else if !reply.ok then
      var details := if reply.text != "" then " - " + reply.text else "";
      (c, Failed("get_token failed: HTTP " + Strings.IntToString(reply.status) + details))
    else if reply.body.None? then (c, Failed(reply.syntaxError))
    else
      var token := RelayTokenField(reply.body);
      if !Truthy(token) then (c, Failed(ErrorMessage(Prop(reply.body, "message"), "get_token: missing access_token")))
      else (CacheState(token.value, now + NumberOr(RelayExpiresField(reply.body), 0) * 1000), Fetched(token.value))
  }

  /** A fetched token whose `expires_in` is missing, zero or not a number expires at once: it is
      never reused, however soon the next call comes. */
  lemma NoExpiryNeverReused(c: CacheState, now: int, reply: TokenReply, later: int)
    requires RelayTokenStep(c, now, reply).1.Fetched?
    requires ToNumber(RelayExpiresField(reply.body)) == None || ToNumber(RelayExpiresField(reply.body)) == Some(0)
    requires now <= later
    ensures !RelayReusable(RelayTokenStep(c, now, reply).0, later)
  {
  }

  /** A fetched token is reused exactly until one minute before `now + expires_in` seconds. */
  lemma FetchedReusedUntil(c: CacheState, now: int, reply: TokenReply, later: int)
    requires RelayTokenStep(c, now, reply).1.Fetched?
    ensures RelayReusable(RelayTokenStep(c, now, reply).0, later)
        <==> later < now + NumberOr(RelayExpiresField(reply.body), 0) * 1000 - 60000
  {
  }

  /** The prompt-suggestion reuse rule, written `cachedTokenExpiresAt - now > 60_000`. */
  predicate SuggestReusable(c: CacheState, now: int) {
    Truthy(Some(c.token)) && c.expiresAt - now > 60000
  }

  /** The two reuse rules are the same rule written two ways. */
  lemma ReuseRulesAgree(c: CacheState, now: int)
    ensures SuggestReusable(c, now) <==> RelayReusable(c, now)
  {
  }

  /** `sseJson(res)`: the decoded body, or `{ _raw: text }` when it is not JSON. */
  function SuggestBody(reply: TokenReply): Json {
    if reply.body.Some? then reply.body.value else Obj1("_raw", JStr(reply.text))
  }

  /** `Number(json.result.expires_in || 0)`, with `None` for `NaN`. */
  function SuggestExpiresIn(json: Json): Option<int> {
    var e := Prop(Prop(Some(json), "result"), "expires_in");
    if Truthy(e) then ToNumber(e) else Some(0)
  }

  /** One call of the prompt-suggestion route's `getAccessToken`. */
  function SuggestTokenStep(c: CacheState, now: int, reply: TokenReply): (r: (CacheState, TokenOutcome))
    ensures r.1.Reused? <==> SuggestReusable(c, now)
    ensures r.1.Reused? ==> r.0 == c && r.1.token == c.token
    ensures r.1.Failed? ==> r.0 == c
    ensures r.1.Fetched? ==> reply.ok && r.0.token == r.1.token
    ensures r.1.Fetched? ==> Some(r.1.token) == Prop(Prop(Some(SuggestBody(reply)), "result"), "access_token")
    ensures r.1.Fetched? ==> now <= r.0.expiresAt
    ensures r.1.Fetched? && SuggestExpiresIn(SuggestBody(reply)).Some? && SuggestExpiresIn(SuggestBody(reply)).value > 0
            ==> r.0.expiresAt == now + SuggestExpiresIn(SuggestBody(reply)).value
    ensures !SuggestReusable(c, now) && !Truthy(Prop(Prop(Some(SuggestBody(reply)), "result"), "access_token"))
            ==> r.1.Failed?
  {
    if SuggestReusable(c, now) then (c, Reused(c.token))
    else
      var json := SuggestBody(reply);
      var token := Prop(Prop(Some(json), "result"), "access_token");
      if !reply.ok || !Truthy(token) then
        var fallback := "获取 access_token 失败（HTTP " + Strings.IntToString(reply.status) + "）";
        var m := Prop(Some(json), "message");
        (c, Failed(if Truthy(m) then ValueString(m) else ErrorMessage(Prop(Some(json), "error"), fallback)))
      else
        var n := SuggestExpiresIn(json);
        (CacheState(token.value, now + if n.Some? && n.value > 0 then n.value else 0), Fetched(token.value))
  }

  /** `expires_in` is added as milliseconds: a lifetime given in seconds, such as 7200, is less than
      the one-minute margin, so such a token is never reused. */
  lemma SuggestSecondsNeverReused(c: CacheState, now: int, reply: TokenReply, later: int)
    requires SuggestTokenStep(c, now, reply).1.Fetched?
    requires SuggestExpiresIn(SuggestBody(reply)).Some? ==> SuggestExpiresIn(SuggestBody(reply)).value <= 60000
    requires now <= later
    ensures !SuggestReusable(SuggestTokenStep(c, now, reply).0, later)
  {
  }

  /** One route's cache, with the two fields the route reassigns. */
  class TokenCache {
    var token: Json
    var expiresAt: int

    constructor()
      ensures State() == InitialCache
    {
      token := JNull;
      expiresAt := 0;
    }

    function State(): CacheState
      reads this
    {
      CacheState(token, expiresAt)
    }

    /** `getAccessToken` of the chat and score relays. */
    method GetAccessToken(now: int, reply: TokenReply) returns (outcome: TokenOutcome)
      modifies this
      ensures (State(), outcome) == RelayTokenStep(old(State()), now, reply)
    {
      ghost var step := RelayTokenStep(State(), now, reply);
      if Truthy(Some(token)) && now < expiresAt - 60000 {
        return Reused(token);
      }
      if !reply.ok {
        var details := if reply.text != "" then " - " + reply.text else "";
        return Failed("get_token failed: HTTP " + Strings.IntToString(reply.status) + details);
      }
      if reply.body.None? {
        return Failed(reply.syntaxError);
      }
      var data := reply.body;
      var t := RelayTokenField(data);
      var expiresIn := RelayExpiresField(data);
      if !Truthy(t) {
        return Failed(ErrorMessage(Prop(data, "message"), "get_token: missing access_token"));
      }
      assert step == (CacheState(t.value, now + NumberOr(expiresIn, 0) * 1000), Fetched(t.value));
      token := t.value;
      expiresAt := now + NumberOr(expiresIn, 0) * 1000;
      return Fetched(t.value);
    }

    /** `getAccessToken` of the prompt-suggestion route. */
    method GetSuggestToken(now: int, reply: TokenReply) returns (outcome: TokenOutcome)
      modifies this
      ensures (State(), outcome) == SuggestTokenStep(old(State()), now, reply)
    {
      if Truthy(Some(token)) && expiresAt - now > 60000 {
        return Reused(token);
      }
      var json := SuggestBody(reply);
      var t := Prop(Prop(Some(json), "result"), "access_token");
      if !reply.ok || !Truthy(t) {
        var fallback := "获取 access_token 失败（HTTP " + Strings.IntToString(reply.status) + "）";
        var m := Prop(Some(json), "message");
        return Failed(if Truthy(m) then ValueString(m) else ErrorMessage(Prop(Some(json), "error"), fallback));
      }
      var n := SuggestExpiresIn(json);
      token := t.value;
      expiresAt := now + if n.Some? && n.value > 0 then n.value else 0;
      return Fetched(t.value);
    }
  }
}
