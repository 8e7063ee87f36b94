/** The backend's e-mail verification service (`EmailVerificationService.java`): sending a
    six-digit code, and checking it once. The database behind it is the `Db` class (the
    `email_verification_codes` table and the `users` table's `email_verified` flags); the mail sender is an
    outbox the service appends to. The clock, the random draw, the hash functions and whether the
    mail server accepts the message are parameters. */
module EmailVerification {
  import opened Wrappers
  import Strings
  import Patterns
  import ParamCheckJava

  // ----- configuration and records -----

  /** The service's settings: `app.mail.from`, `app.mail.fromName`, the code lifetime, the
      minimum gap between two sends, and the HMAC secret (absent or blank: plain SHA-256). */
  datatype Config = Config(from: string, fromName: string, ttlSeconds: int, minResendSeconds: int,
                           hmacSecret: Option<string>)

  /** The two digests, as opaque functions: SHA-256 of a string and HMAC-SHA-256 of a message
      under a key, both in hexadecimal. */
  datatype Hasher = Hasher(sha: string -> string, hmac: (string, string) -> string)

  /** One row of `email_verification_codes`. Times are epoch seconds. */
  datatype CodeRecord = CodeRecord(email: string, codeHash: string, createdAt: int, expiresAt: int,
                                   requestIp: Option<string>, usedAt: Option<int>)

  /** A message handed to the mail server. */
  datatype Mail = Mail(to: string, from: string, fromName: string, subject: string, code: string,
                       ttlMinutes: int)

  /** `SendResult` and `VerifyResult`: a status and an error message (`null`: `None`). */
  datatype Outcome = Outcome(status: int, error: Option<string>)

  /** `sendCode` returns an outcome or throws `IllegalStateException` when the mail fails. */
  datatype SendOutcome = Returned(result: Outcome) | Threw(message: string)

  /** Everything the two operations change: the code rows, the registered users (each address
      with its `email_verified` flag), the outbox. */
  datatype Store = Store(codes: seq<CodeRecord>, users: map<string, bool>, outbox: seq<Mail>)

  const Subject := "AISP 邮箱验证码"

  function Ok(): Outcome { Outcome(200, None) }
  function Invalid(msg: string): Outcome { Outcome(400, Some(msg)) }
  function TooManyRequests(msg: string): Outcome { Outcome(429, Some(msg)) }
  function Unauthorized(msg: string): Outcome { Outcome(401, Some(msg)) }

  /** `VerifyResult.isSuccess`. */
  predicate IsSuccess(r: Outcome) {
    r.status == 200 && r.error.None?
  }

  /** Of the four results the service builds, only `ok()` is a success. */
  lemma SuccessOnlyOk(msg: string)
    ensures IsSuccess(Ok())
    ensures !IsSuccess(Invalid(msg)) && !IsSuccess(TooManyRequests(msg)) && !IsSuccess(Unauthorized(msg))
  {
  }

  // ----- the pure helpers -----

  /** `String.format("%0" + w + "d", n)` for `0 <= n < 10^w`: `w` digits, zero-padded. */
  function ZeroPadded(n: nat, w: nat): (r: string)
    requires n < Strings.Pow10(w)
    ensures |r| == w && Strings.AllDigits(r)
    ensures Strings.DigitsValue(r) == n
  {
    if w == 0 then ""
    else
      var head := ZeroPadded(n / 10, w - 1);
      var r := head + [Strings.DigitChar(n % 10)];
      assert r[..|r| - 1] == head;
      r
  }

  /** `generate6DigitCode`, given the draw `RNG.nextInt(1_000_000)` returned. */
  function SixDigitCode(draw: int): (code: string)
    requires 0 <= draw < 1000000
  {
    assert Strings.Pow10(6) == 1000000;
    ZeroPadded(draw, 6)
  }

  /** A code is six digits whose value is the draw: distinct draws give distinct codes, and every
      code passes both the backend's code check and `verifyCode`'s length check. */
  lemma SixDigitCodeShape(draw: int)
    requires 0 <= draw < 1000000
    ensures |SixDigitCode(draw)| == 6 && Strings.AllDigits(SixDigitCode(draw))
    ensures Strings.DigitsValue(SixDigitCode(draw)) == draw
    ensures ParamCheckJava.IsAbailCode(Some(SixDigitCode(draw)))
    ensures !ParamCheckJava.IsNullOrEmpty(Some(SixDigitCode(draw)))
  {
    assert Strings.Pow10(6) == 1000000;
    var c := SixDigitCode(draw);
    assert c[0] as int > 0x20;
  }

  /** What is hashed: the e-mail, a colon, the code. */
  function HashInput(email: string, code: string): string {
    email + ":" + code
  }

  /** A well-formed address has no colon, so the hashed input determines both the address and
      the code: a code cannot be replayed for another address. */
  lemma HashInputBinds(e1: string, c1: string, e2: string, c2: string)
    requires Patterns.MatchesEmail(e1) && Patterns.MatchesEmail(e2)
    requires HashInput(e1, c1) == HashInput(e2, c2)
    ensures e1 == e2 && c1 == c2
  {
    NoColon(e1);
    NoColon(e2);
    var s := HashInput(e1, c1);
    assert s[|e1|] == ':' && s[|e2|] == ':';
    assert e1 == s[..|e1|] == e2;
    assert c1 == s[|e1| + 1..] == c2;
  }

  lemma NoColon(e: string)
    requires Patterns.MatchesEmail(e)
    ensures forall k :: 0 <= k < |e| ==> e[k] != ':'
  {
    var a, d :| 0 <= a < |e| && 0 <= d < |e| && Patterns.EmailAt(e, a, d);
    assert Patterns.AllIn(e, 0, a, Patterns.IsLocalChar);
    assert Patterns.AllIn(e, a + 1, d, Patterns.IsDomainChar);
    assert Patterns.AllIn(e, d + 1, |e|, Patterns.IsAsciiLetter);
    forall k | 0 <= k < |e|
      ensures e[k] != ':'
    {
      if k < a {
        assert Patterns.IsLocalChar(e[k]);
      } else if a < k < d {
        assert Patterns.IsDomainChar(e[k]);
      } else if d < k {
        assert Patterns.IsAsciiLetter(e[k]);
      }
    }
  }

  /** `Character.isWhitespace`: what `String.isBlank` skips. */
  predicate IsJavaWhitespace(c: char) {
    var n := c as int;
    (0x09 <= n <= 0x0D) || (0x1C <= n <= 0x20) || n == 0x1680 || (0x2000 <= n <= 0x2006)
    || (0x2008 <= n <= 0x200A) || n == 0x2028 || n == 0x2029 || n == 0x205F || n == 0x3000
  }

  /** `s.isBlank()`. */
  predicate IsBlank(s: string) {
    forall k :: 0 <= k < |s| ==> IsJavaWhitespace(s[k])
  }

  /** `hashCode`: HMAC under the secret when one is configured and not blank, else SHA-256. */
  function CodeHash(cfg: Config, h: Hasher, email: string, code: string): (r: string)
    ensures cfg.hmacSecret.Some? && !IsBlank(cfg.hmacSecret.value) ==> r == h.hmac(cfg.hmacSecret.value, HashInput(email, code))
    ensures cfg.hmacSecret.None? || IsBlank(cfg.hmacSecret.value) ==> r == h.sha(HashInput(email, code))
  {
    var input := HashInput(email, code);
    if cfg.hmacSecret.Some? && !IsBlank(cfg.hmacSecret.value) then h.hmac(cfg.hmacSecret.value, input)
    else h.sha(input)
  }

  /** `formatFrom`: the bare address without a usable name, else `name <address>`. */
  function FormatFrom(email: string, name: Option<string>): (r: string)
    ensures name.None? || IsBlank(name.value) ==> r == email
    ensures name.Some? && !IsBlank(name.value) ==>
              Strings.StartsWith(r, name.value) && Strings.EndsWith(r, "<" + email + ">")
              && |r| == |name.value| + |email| + 3
  {
    if name.None? || IsBlank(name.value) then email else name.value + " <" + email + ">"
  }

  /** Java's `int` division, which truncates toward zero. */
  function JavaDiv(a: int, b: int): int
    requires b > 0
  {
    if a >= 0 then a / b else -((-a) / b)
  }

  /** `Math.max(1, ttlSeconds / 60)`: the lifetime in whole minutes shown in the mail. */
  function TtlMinutes(ttlSeconds: int): (m: int)
    ensures m >= 1
    ensures ttlSeconds >= 60 ==> m * 60 <= ttlSeconds < (m + 1) * 60
    ensures ttlSeconds < 120 ==> m == 1
  {
    var q := JavaDiv(ttlSeconds, 60);
    if q < 1 then 1 else q
  }

  // ----- the database queries -----

  /** `getLatestVerificationCreatedAt`: the newest `created_at` among the address's rows. */
  function LatestCreatedAt(codes: seq<CodeRecord>, email: string): (t: Option<int>)
    ensures t.None? <==> forall i :: 0 <= i < |codes| ==> codes[i].email != email
    ensures t.Some? ==> exists i :: 0 <= i < |codes| && codes[i].email == email && codes[i].createdAt == t.value
    ensures t.Some? ==> forall i :: 0 <= i < |codes| && codes[i].email == email ==> codes[i].createdAt <= t.value
  {
    if codes == [] then None
    else
      var rest := LatestCreatedAt(codes[..|codes| - 1], email);
      var last := codes[|codes| - 1];
      if last.email != email then rest
      else if rest.Some? && rest.value > last.createdAt then rest
      else Some(last.createdAt)
  }

  /** A row `consumeVerificationCode` may use: this address and hash, unused, unexpired. */
  predicate Usable(rec: CodeRecord, email: string, codeHash: string, now: int) {
    rec.email == email && rec.codeHash == codeHash && rec.usedAt.None? && rec.expiresAt > now
  }

  /** Some row is usable. */
  predicate AnyUsable(codes: seq<CodeRecord>, email: string, codeHash: string, now: int) {
    exists i :: 0 <= i < |codes| && Usable(codes[i], email, codeHash, now)
  }

  /** The `UPDATE` of `consumeVerificationCode`: every usable row gets `used_at = now`. */
  function Consumed(codes: seq<CodeRecord>, email: string, codeHash: string, now: int): (r: seq<CodeRecord>)
    ensures |r| == |codes|
    ensures forall i :: 0 <= i < |codes| ==>
              r[i] == if Usable(codes[i], email, codeHash, now) then codes[i].(usedAt := Some(now)) else codes[i]
  {
    if codes == [] then []
    else
      var rec := codes[|codes| - 1];
      Consumed(codes[..|codes| - 1], email, codeHash, now)
        + [if Usable(rec, email, codeHash, now) then rec.(usedAt := Some(now)) else rec]
  }

  /** A code is good once: after consuming, no row is usable for it any more, and without a
      usable row consuming changes nothing. */
  lemma ConsumeOnce(codes: seq<CodeRecord>, email: string, codeHash: string, now: int)
    ensures !AnyUsable(Consumed(codes, email, codeHash, now), email, codeHash, now)
    ensures !AnyUsable(codes, email, codeHash, now) ==> Consumed(codes, email, codeHash, now) == codes
  {
    var r := Consumed(codes, email, codeHash, now);
    forall i | 0 <= i < |r|
      ensures !Usable(r[i], email, codeHash, now)
    {
    }
  }

  // ----- the two operations, on values -----

  /** The first check of both operations: a `null`, blank or malformed address. */
  predicate EmailRejected(email: Option<string>) {
    ParamCheckJava.IsNullOrEmpty(email) || !ParamCheckJava.IsAvailEmail(email)
  }

  /** The blank test adds nothing: an address is rejected exactly when it is `null` or does not
      match the address pattern. */
  lemma EmailRejectedIff(email: Option<string>)
    ensures EmailRejected(email) <==> email.None? || !Patterns.MatchesEmail(email.value)
  {
    if email.Some? && Patterns.MatchesEmail(email.value) {
      var a, d :| 0 <= a < |email.value| && 0 <= d < |email.value| && Patterns.EmailAt(email.value, a, d);
      assert !Strings.IsJavaTrimmed(email.value[a]);
      Strings.TrimEmptyIff(email.value, Strings.IsJavaTrimmed);
    }
  }

  /** The resend limit: the address's latest code is less than `minResendSeconds` old. */
  predicate TooSoon(codes: seq<CodeRecord>, email: string, now: int, minResendSeconds: int) {
    var last := LatestCreatedAt(codes, email);
    last.Some? && now - last.value < minResendSeconds
  }

  /** The row `sendCode` inserts. */
  function NewRecord(cfg: Config, h: Hasher, email: string, code: string, requestIp: Option<string>, now: int): CodeRecord {
    CodeRecord(email, CodeHash(cfg, h, email, code), now, now + cfg.ttlSeconds, requestIp, None)
  }

  /** The message `sendCode` sends. */
  function NewMail(cfg: Config, email: string, code: string): Mail {
    Mail(email, cfg.from, cfg.fromName, Subject, code, TtlMinutes(cfg.ttlSeconds))
  }

  /** `sendCode`, given the clock, the random draw and whether the mail server accepts. */
  function Send(cfg: Config, h: Hasher, st: Store, email: Option<string>, requestIp: Option<string>,
                now: int, draw: int, mailOk: bool): (SendOutcome, Store)
    requires 0 <= draw < 1000000
  {
    if EmailRejected(email) then (Returned(Invalid("Invalid email format.")), st)
    else if TooSoon(st.codes, email.value, now, cfg.minResendSeconds) then
      (Returned(TooManyRequests("Too many requests. Please try later.")), st)
    else Issue(cfg, h, st, email.value, requestIp, now, draw, mailOk)
  }

  /** The part of `sendCode` after both checks: insert the row, then mail the code. */
  function Issue(cfg: Config, h: Hasher, st: Store, email: string, requestIp: Option<string>,
                 now: int, draw: int, mailOk: bool): (SendOutcome, Store)
    requires 0 <= draw < 1000000
  {
    var code := SixDigitCode(draw);
    var codes := st.codes + [NewRecord(cfg, h, email, code, requestIp, now)];
    if mailOk then (Returned(Ok()), st.(codes := codes, outbox := st.outbox + [NewMail(cfg, email, code)]))
    else (Threw("Failed to send verification email"), st.(codes := codes))
  }

  /** What `sendCode` does in each case: a rejected address or a too-early resend changes nothing;
      otherwise exactly one row is added, expiring `ttlSeconds` after now and holding the hash of
      the code that is mailed, and the row stays even when the mail fails. */
  lemma SendCases(cfg: Config, h: Hasher, st: Store, email: Option<string>, requestIp: Option<string>,
                  now: int, draw: int, mailOk: bool)
    requires 0 <= draw < 1000000
    ensures var (r, st') := Send(cfg, h, st, email, requestIp, now, draw, mailOk);
      && (email.None? || !Patterns.MatchesEmail(email.value) ==> r == Returned(Invalid("Invalid email format.")) && st' == st)
      && (email.Some? && Patterns.MatchesEmail(email.value) && TooSoon(st.codes, email.value, now, cfg.minResendSeconds) ==>
            r.Returned? && r.result.status == 429 && st' == st)
      && (email.Some? && Patterns.MatchesEmail(email.value) && !TooSoon(st.codes, email.value, now, cfg.minResendSeconds) ==>
            && |st'.codes| == |st.codes| + 1 && st'.codes[..|st.codes|] == st.codes
            && st'.codes[|st.codes|].email == email.value
            && st'.codes[|st.codes|].expiresAt == now + cfg.ttlSeconds
            && st'.codes[|st.codes|].codeHash == CodeHash(cfg, h, email.value, SixDigitCode(draw))
            && st'.codes[|st.codes|].usedAt.None?
            && st'.users == st.users
            && (mailOk <==> r == Returned(Ok()))
            && (mailOk ==> st'.outbox == st.outbox + [NewMail(cfg, email.value, SixDigitCode(draw))])
            && (!mailOk ==> st'.outbox == st.outbox))
  {
    EmailRejectedIff(email);
  }

  /** Right after a successful send, another send for the same address less than
      `minResendSeconds` later is refused and changes nothing. */
  lemma ResendThrottled(cfg: Config, h: Hasher, st: Store, email: string, ip: Option<string>, now: int, draw: int,
                        ip2: Option<string>, later: int, draw2: int, mailOk2: bool)
    requires 0 <= draw < 1000000 && 0 <= draw2 < 1000000
    requires Send(cfg, h, st, Some(email), ip, now, draw, true).0 == Returned(Ok())
    requires later - now < cfg.minResendSeconds
    ensures var st1 := Send(cfg, h, st, Some(email), ip, now, draw, true).1;
            Send(cfg, h, st1, Some(email), ip2, later, draw2, mailOk2)
              == (Returned(TooManyRequests("Too many requests. Please try later.")), st1)
  {
    var st1 := Send(cfg, h, st, Some(email), ip, now, draw, true).1;
    assert st1.codes[|st1.codes| - 1].email == email && st1.codes[|st1.codes| - 1].createdAt == now;
    assert LatestCreatedAt(st1.codes, email).Some?;
  }

  /** `verifyCode`, given the clock that the database's `NOW()` reads. */
  function Verify(cfg: Config, h: Hasher, st: Store, email: Option<string>, code: Option<string>, now: int): (Outcome, Store) {
    if EmailRejected(email) then (Invalid("Invalid email format."), st)
    else if ParamCheckJava.IsNullOrEmpty(code) || |code.value| != 6 then (Invalid("Invalid code."), st)
    else Redeem(st, email.value, CodeHash(cfg, h, email.value, code.value), now)
  }

  /** `UPDATE users SET email_verified = 1 WHERE email = ?`: the flag of a registered address is
      set; an address with no user row changes nothing. */
  function MarkVerified(users: map<string, bool>, email: string): (r: map<string, bool>)
    ensures r.Keys == users.Keys
    ensures forall e :: e in r ==> r[e] == (users[e] || e == email)
  {
    if email in users then users[email := true] else users
  }

  /** The part of `verifyCode` after both checks: consume the code, then mark the address. */
  function Redeem(st: Store, email: string, codeHash: string, now: int): (Outcome, Store) {
    if !AnyUsable(st.codes, email, codeHash, now) then (Unauthorized("Invalid or expired code."), st)
    else (Ok(), st.(codes := Consumed(st.codes, email, codeHash, now), users := MarkVerified(st.users, email)))
  }

  /** `verifyCode` succeeds exactly when the address is well formed, the code has six
      characters not all of them blank, and an unused, unexpired row holds its hash. Only the
      length of the code is checked, not its digits. */
  lemma VerifySucceedsIff(cfg: Config, h: Hasher, st: Store, email: Option<string>, code: Option<string>, now: int)
    ensures IsSuccess(Verify(cfg, h, st, email, code, now).0)
            <==> && email.Some? && Patterns.MatchesEmail(email.value)
                 && code.Some? && |code.value| == 6 && (exists k :: 0 <= k < 6 && code.value[k] as int > 0x20)
                 && AnyUsable(st.codes, email.value, CodeHash(cfg, h, email.value, code.value), now)
  {
    EmailRejectedIff(email);
    CodeAcceptedIff(code);
  }

  /** The code check of `verifyCode`: six characters, not all of them blank. */
  lemma CodeAcceptedIff(code: Option<string>)
    ensures !(ParamCheckJava.IsNullOrEmpty(code) || |code.value| != 6)
            <==> code.Some? && |code.value| == 6 && (exists k :: 0 <= k < 6 && code.value[k] as int > 0x20)
  {
  }

  /** Only a success changes anything: it consumes the code's rows and sets the `email_verified`
      flag of the address's user, when there is one; an address with no user row stays
      unregistered. A failure is a 400 or a 401 and leaves the store as it was. No mail is sent. */
  lemma VerifyEffects(cfg: Config, h: Hasher, st: Store, email: Option<string>, code: Option<string>, now: int)
    ensures var r := Verify(cfg, h, st, email, code, now);
      && (IsSuccess(r.0) ==> && email.Some? && code.Some?
                             && r.1.users == MarkVerified(st.users, email.value)
                             && (email.value !in st.users ==> r.1.users == st.users)
                             && r.1.codes == Consumed(st.codes, email.value, CodeHash(cfg, h, email.value, code.value), now))
      && (!IsSuccess(r.0) ==> r.1 == st && (r.0.status == 400 || r.0.status == 401))
      && r.1.outbox == st.outbox
  {
    var r := Verify(cfg, h, st, email, code, now);
    if EmailRejected(email) || ParamCheckJava.IsNullOrEmpty(code) || |code.value| != 6 {
      assert r.0.status == 400 && r.1 == st;
    } else {
      var codeHash := CodeHash(cfg, h, email.value, code.value);
      if !AnyUsable(st.codes, email.value, codeHash, now) {
        assert r.0.status == 401 && r.1 == st;
      } else {
        assert r.1 == st.(codes := Consumed(st.codes, email.value, codeHash, now), users := MarkVerified(st.users, email.value));
      }
    }
  }

  /** A code verifies once: repeating a successful `verifyCode` at the same moment is refused
      with 401. */
  lemma VerifyOnce(cfg: Config, h: Hasher, st: Store, email: string, code: string, now: int)
    requires IsSuccess(Verify(cfg, h, st, Some(email), Some(code), now).0)
    ensures var st1 := Verify(cfg, h, st, Some(email), Some(code), now).1;
            Verify(cfg, h, st1, Some(email), Some(code), now) == (Unauthorized("Invalid or expired code."), st1)
  {
    ConsumeOnce(st.codes, email, CodeHash(cfg, h, email, code), now);
  }

  // ----- registration -----

  /** `Register.register` after its format checks, as written: 409 for an address that already
      has a user, 400 when `verifyCode` fails, else `createUser`. Its INSERT does not name
      `email_verified`, so the new row takes the column's default, `flagDefault`. */
  function RegisterAsWritten(cfg: Config, h: Hasher, st: Store, email: string, code: string, now: int,
                             flagDefault: bool): (int, Store)
  {
    if email in st.users then (409, st)
    else
      var v := Verify(cfg, h, st, Some(email), Some(code), now);
      if !IsSuccess(v.0) then (400, v.1)
      else (200, v.1.(users := v.1.users[email := flagDefault]))
  }

  /** Registration as written never sets the flag: `verifyCode` runs while the address has no user
      row, so its UPDATE matches nothing, and the user created afterwards keeps the column default
      however the code was checked. */
  lemma RegisterLeavesFlagUnset(cfg: Config, h: Hasher, st: Store, email: string, code: string, now: int,
                                flagDefault: bool)
    ensures var r := RegisterAsWritten(cfg, h, st, email, code, now, flagDefault);
            && (r.0 == 200 <==> email !in st.users && IsSuccess(Verify(cfg, h, st, Some(email), Some(code), now).0))
            && (r.0 == 200 ==> r.1.users == st.users[email := flagDefault])
            && (r.0 != 200 ==> r.1 == st)
  {
    VerifyEffects(cfg, h, st, Some(email), Some(code), now);
  }

  /** Registration as intended: the user row is created, then its address is marked verified. */
  function Register(cfg: Config, h: Hasher, st: Store, email: string, code: string, now: int,
                    flagDefault: bool): (int, Store)
  {
    if email in st.users then (409, st)
    else
      var v := Verify(cfg, h, st, Some(email), Some(code), now);
      if !IsSuccess(v.0) then (400, v.1)
      else (200, v.1.(users := MarkVerified(v.1.users[email := flagDefault], email)))
  }

  /** A registration that succeeds leaves the new user verified, whatever the column default; one
      that fails changes nothing. */
  lemma RegisterVerifies(cfg: Config, h: Hasher, st: Store, email: string, code: string, now: int,
                         flagDefault: bool)
    ensures var r := Register(cfg, h, st, email, code, now, flagDefault);
            && (r.0 == 200 <==> email !in st.users && IsSuccess(Verify(cfg, h, st, Some(email), Some(code), now).0))
            && (r.0 == 200 ==> r.1.users == st.users[email := true])
            && (r.0 != 200 ==> r.1 == st)
  {
    VerifyEffects(cfg, h, st, Some(email), Some(code), now);
    MarkCreated(st.users, email, flagDefault);
  }

  /** Marking a user just created sets its flag whatever it was created with. */
  lemma MarkCreated(users: map<string, bool>, email: string, flag: bool)
    ensures MarkVerified(users[email := flag], email) == users[email := true]
  {
  }

  // ----- the service and its database, as objects -----

  /** `DbController`, reduced to what the service uses. */
  class Db {
    var codes: seq<CodeRecord>
    /** The `users` table: each registered address and its `email_verified` flag. */
    var users: map<string, bool>

    constructor (codes: seq<CodeRecord>, users: map<string, bool>)
      ensures this.codes == codes && this.users == users
    {
      this.codes := codes;
      this.users := users;
    }

    /** `getLatestVerificationCreatedAt`. */
    function LatestCreatedAtFor(email: string): Option<int>
      reads this
    {
      LatestCreatedAt(codes, email)
    }

    /** `insertVerificationCode`, with `created_at` set to the database clock `now`. */
    method InsertVerificationCode(email: string, codeHash: string, expiresAt: int, requestIp: Option<string>, now: int)
      modifies this
      ensures codes == old(codes) + [CodeRecord(email, codeHash, now, expiresAt, requestIp, None)]
      ensures users == old(users)
    {
      codes := codes + [CodeRecord(email, codeHash, now, expiresAt, requestIp, None)];
    }

    /** `consumeVerificationCode`: true when at least one row was updated. */
    method ConsumeVerificationCode(email: string, codeHash: string, now: int) returns (ok: bool)
      modifies this
      ensures ok == AnyUsable(old(codes), email, codeHash, now)
      ensures codes == Consumed(old(codes), email, codeHash, now)
      ensures users == old(users)
    {
      ok := AnyUsable(codes, email, codeHash, now);
      codes := Consumed(codes, email, codeHash, now);
    }

    /** `markEmailVerified`: the number of user rows updated, one for a registered address and
        none otherwise. */
    method MarkEmailVerified(email: string) returns (updated: int)
      modifies this
      ensures updated == (if email in old(users) then 1 else 0)
      ensures users == MarkVerified(old(users), email)
      ensures codes == old(codes)
    {
      updated := if email in users then 1 else 0;
      users := MarkVerified(users, email);
    }
  }

  class Service {
    const db: Db
    const cfg: Config
    const hasher: Hasher
    /** The messages the mail sender accepted. */
    var outbox: seq<Mail>

    constructor (db: Db, cfg: Config, hasher: Hasher)
      ensures this.db == db && this.cfg == cfg && this.hasher == hasher && outbox == []
    {
      this.db := db;
      this.cfg := cfg;
      this.hasher := hasher;
      outbox := [];
    }

    function Snapshot(): Store
      reads this, db
    {
      Store(db.codes, db.users, outbox)
    }

    /** `sendCode`: validate, apply the resend limit, insert the row, then mail the code. */
    method SendCode(email: Option<string>, requestIp: Option<string>, now: int, draw: int, mailOk: bool)
      returns (r: SendOutcome)
      requires 0 <= draw < 1000000
      modifies this, db
      ensures (r, Snapshot()) == Send(cfg, hasher, old(Snapshot()), email, requestIp, now, draw, mailOk)
    {
      if EmailRejected(email) {
        return Returned(Invalid("Invalid email format."));
      }
      var lastSent := db.LatestCreatedAtFor(email.value);
      if lastSent.Some? && now - lastSent.value < cfg.minResendSeconds {
        return Returned(TooManyRequests("Too many requests. Please try later."));
      }
      r := IssueCode(email.value, requestIp, now, draw, mailOk);
    }

    /** Generate the code, insert its row, then send the mail. */
    method IssueCode(email: string, requestIp: Option<string>, now: int, draw: int, mailOk: bool)
      returns (r: SendOutcome)
      requires 0 <= draw < 1000000
      modifies this, db
      ensures (r, Snapshot()) == Issue(cfg, hasher, old(Snapshot()), email, requestIp, now, draw, mailOk)
    {
      var code := SixDigitCode(draw);
      var expiresAt := now + cfg.ttlSeconds;
      var codeHash := CodeHash(cfg, hasher, email, code);
      assert CodeRecord(email, codeHash, now, expiresAt, requestIp, None)
          == NewRecord(cfg, hasher, email, code, requestIp, now);
      db.InsertVerificationCode(email, codeHash, expiresAt, requestIp, now);
      if !mailOk {
        return Threw("Failed to send verification email");
      }
      outbox := outbox + [NewMail(cfg, email, code)];
      r := Returned(Ok());
    }

    /** `verifyCode`: validate both inputs, consume the code, then mark the address verified. */
    method VerifyCode(email: Option<string>, code: Option<string>, now: int) returns (r: Outcome)
      modifies db
      ensures (r, Snapshot()) == Verify(cfg, hasher, old(Snapshot()), email, code, now)
    {
      if EmailRejected(email) {
        return Invalid("Invalid email format.");
      }
      if ParamCheckJava.IsNullOrEmpty(code) || |code.value| != 6 {
        return Invalid("Invalid code.");
      }
      var codeHash := CodeHash(cfg, hasher, email.value, code.value);
      r := RedeemCode(email.value, codeHash, now);
    }

    /** Consume the code's rows and, when one was usable, mark the address's user verified. */
    method RedeemCode(email: string, codeHash: string, now: int) returns (r: Outcome)
      modifies db
      ensures (r, Snapshot()) == Redeem(old(Snapshot()), email, codeHash, now)
    {
      var ok := db.ConsumeVerificationCode(email, codeHash, now);
      if !ok {
        ConsumeOnce(old(db.codes), email, codeHash, now);
        return Unauthorized("Invalid or expired code.");
      }
      var _ := db.MarkEmailVerified(email);
      r := Ok();
    }
  }
}
