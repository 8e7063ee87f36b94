/** The development login bypass (`devAuthBypassEnabled`) and the session-id resolver
    (`resolveSid`) that the conversation and session-index routes call. The environment is a
    parameter. */
module DevAuth {
  import opened Wrappers

  /** `process.env.NODE_ENV`, `DEBUG_LOCAL` and `DEV_AUTH_BYPASS`. */
  datatype Env = Env(nodeEnv: Option<string>, debugLocal: Option<string>, devAuthBypass: Option<string>)

  /** A cookie value as `if (cookieSid)` reads it: missing and empty both mean no session. */
  function Sid(cookie: Option<string>): (sid: Option<string>)
    ensures sid.Some? <==> cookie.Some? && cookie.value != ""
    ensures sid.Some? ==> sid == cookie
  {
    if cookie.Some? && cookie.value != "" then cookie else None
  }

  /** `devAuthBypassEnabled()`. */
  predicate BypassEnabled(env: Env) {
    if env.nodeEnv == Some("production") then false
    else env.debugLocal == Some("1") || env.devAuthBypass == Some("1")
  }

  /** Bypass is off in production whatever the flags say, and elsewhere it is on exactly when
      one of the two flags is `'1'`. */
  lemma BypassRule(env: Env)
    ensures env.nodeEnv == Some("production") ==> !BypassEnabled(env)
    ensures env.nodeEnv != Some("production") ==>
              (BypassEnabled(env) <==> env.debugLocal == Some("1") || env.devAuthBypass == Some("1"))
  {
  }

  /** `{ sid, bypass }`. */
  datatype Resolved = Resolved(sid: Option<string>, bypass: bool)

  /** `resolveSid(cookieSid)`. */
  function ResolveSid(env: Env, cookie: Option<string>): (r: Resolved)
    ensures r.sid.Some? ==> r.sid.value != ""
    ensures r.bypass == BypassEnabled(env)
    ensures Sid(cookie).Some? ==> r.sid == Sid(cookie)
    ensures Sid(cookie).None? ==> (r.sid.Some? <==> BypassEnabled(env))
    ensures r.sid.Some? && r.sid != Sid(cookie) ==> r.sid == Some("dev") && BypassEnabled(env)
  {
    var bypass := BypassEnabled(env);
    if Sid(cookie).Some? then Resolved(cookie, bypass)
    else if bypass then Resolved(Some("dev"), true)
    else Resolved(None, false)
  }

  /** Outside bypass mode the resolver is plain cookie authentication. */
  lemma NoBypassIsCookie(env: Env, cookie: Option<string>)
    requires !BypassEnabled(env)
    ensures ResolveSid(env, cookie) == Resolved(Sid(cookie), false)
  {
  }
}
