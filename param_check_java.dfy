/** The backend's input validators (`ParamCheck.java`), over `String` values that may be `null`
    (`None`). `String.matches` must match the whole string, and `.` there stops at line
    terminators. */
module ParamCheckJava {
  import opened Wrappers
  import opened Json
  import Strings
  import Patterns
  import ParamCheckJs

  /** A call that returns a value, or one that throws `NullPointerException`. */
  datatype Outcome = Returns(value: bool) | ThrowsNullPointer

  /** Java's line terminators, which `.` does not match. */
  predicate IsLineTerminator(c: char) {
    c == '\n' || c == '\r' || c as int == 0x85 || c as int == 0x2028 || c as int == 0x2029
  }

  /** `s.matches(".*[X].*")` for a class `X`: no line terminator anywhere, and a character of
      the class. */
  predicate MatchesAround(s: string, p: char -> bool) {
    (forall k :: 0 <= k < |s| ==> !IsLineTerminator(s[k])) && Patterns.HasChar(s, p)
  }

  /** `isNullOrEmpty`: `null`, or a string whose Java trim is empty. */
  function IsNullOrEmpty(param: Option<string>): (r: bool)
    ensures r <==> param.None? || forall k :: 0 <= k < |param.value| ==> param.value[k] as int <= 0x20
  {
    var text := if param.Some? then param.value else "";
    Strings.TrimEmptyIff(text, Strings.IsJavaTrimmed);
    param.None? || Strings.JavaTrim(text) == ""
  }

  /** `isAvailEmail`. */
  function IsAvailEmail(email: Option<string>): (r: bool)
    ensures r <==> email.Some? && Patterns.MatchesEmail(email.value)
  {
    var text := if email.Some? then email.value else "";
    Patterns.EmailDecides(text);
    email.Some? && Patterns.IsEmail(text)
  }

  /** `isAbailPassword`: it calls `matches` before its `null` check. A string is accepted
      exactly when it holds no line terminator, an upper-case letter, a digit and a special
      character, and has at least eight characters. */
  function IsAbailPassword(password: Option<string>): (r: Outcome)
    ensures password.None? <==> r.ThrowsNullPointer?
    ensures password.Some? ==>
              var s := password.value;
              r == Returns(&& (forall k :: 0 <= k < |s| ==> !IsLineTerminator(s[k]))
                           && (exists k :: 0 <= k < |s| && Patterns.IsUpper(s[k]))
                           && (exists k :: 0 <= k < |s| && Strings.IsDigit(s[k]))
                           && (exists k :: 0 <= k < |s| && Patterns.IsSpecial(s[k]))
                           && |s| >= 8)
  {
    if password.None? then ThrowsNullPointer
    else
      var s := password.value;
      if !MatchesAround(s, Patterns.IsUpper) then Returns(false)
      else if !MatchesAround(s, Strings.IsDigit) then Returns(false)
      else if !MatchesAround(s, Patterns.IsSpecial) then Returns(false)
      else Returns(|s| >= 8)
  }

  /** `isAbailUsername`: 3 to 30 word characters. */
  function IsAbailUsername(username: Option<string>): (r: bool)
    ensures r <==> && username.Some? && 3 <= |username.value| <= 30
                   && forall k :: 0 <= k < |username.value| ==> Patterns.IsWord(username.value[k])
  {
    if username.None? || !Patterns.IsWordRun(username.value) then false
    else 3 <= |username.value| <= 30 && Patterns.IsWordRun(username.value)
  }

  /** `isAbailCode`: exactly six digits, untrimmed. */
  function IsAbailCode(code: Option<string>): (r: bool)
    ensures r <==> code.Some? && |code.value| == 6 && forall k :: 0 <= k < 6 ==> Strings.IsDigit(code.value[k])
  {
    code.Some? && Patterns.IsSixDigits(code.value)
  }

  // ----- the two implementations side by side -----

  /** On strings both accept the same e-mail addresses; both reject `null`. */
  lemma EmailAgrees(s: string)
    ensures IsAvailEmail(Some(s)) == ParamCheckJs.IsAvailEmail(Some(JStr(s)))
    ensures !IsAvailEmail(None) && !ParamCheckJs.IsAvailEmail(Some(JNull)) && !ParamCheckJs.IsAvailEmail(None)
  {
    assert !Patterns.MatchesEmail("");
  }

  /** On strings both accept the same user names; both reject `null`. */
  lemma UsernameAgrees(s: string)
    ensures IsAbailUsername(Some(s)) == ParamCheckJs.IsAbailUsername(Some(JStr(s)))
    ensures !IsAbailUsername(None) && !ParamCheckJs.IsAbailUsername(Some(JNull))
  {
  }

  /** The backend accepts a password exactly when the client does and it holds no line
      terminator; for `null` the client says no where the backend throws. */
  lemma PasswordDiffers(s: string)
    ensures IsAbailPassword(Some(s))
            == Returns(ParamCheckJs.IsAbailPassword(Some(JStr(s))) && forall k :: 0 <= k < |s| ==> !IsLineTerminator(s[k]))
    ensures IsAbailPassword(None) == ThrowsNullPointer && !ParamCheckJs.IsAbailPassword(Some(JNull))
  {
    if ParamCheckJs.IsAbailPassword(Some(JStr(s))) && (forall k :: 0 <= k < |s| ==> !IsLineTerminator(s[k])) {
      assert MatchesAround(s, Patterns.IsUpper) && MatchesAround(s, Strings.IsDigit) && MatchesAround(s, Patterns.IsSpecial);
    }
  }

  /** A password the client accepts and the backend rejects. */
  lemma PasswordWithNewline()
    ensures ParamCheckJs.IsAbailPassword(Some(JStr("Abcdef1!\n")))
    ensures IsAbailPassword(Some("Abcdef1!\n")) == Returns(false)
  {
    var s := "Abcdef1!\n";
    assert Patterns.IsUpper(s[0]) && Strings.IsDigit(s[6]) && Patterns.IsSpecial(s[7]);
    assert IsLineTerminator(s[8]);
  }

  /** The backend does not trim a code; the client does. A code the backend accepts, the client
      accepts too, and the client's answer is the backend's answer on the trimmed string. */
  lemma CodeDiffers(s: string)
    ensures IsAbailCode(Some(s)) ==> ParamCheckJs.IsAvailVerifyCode(Some(JStr(s)))
    ensures ParamCheckJs.IsAvailVerifyCode(Some(JStr(s))) == IsAbailCode(Some(Strings.Trim(s)))
  {
    assert ValueString(Some(JStr(s))) == s;
    if IsAbailCode(Some(s)) {
      assert !Strings.IsJsSpace(s[0]) && !Strings.IsJsSpace(s[5]);
      Strings.TrimOfTrimmed(s);
    }
  }

  /** A code with a leading space: the client accepts it, the backend does not. */
  lemma CodeWithSpace()
    ensures ParamCheckJs.IsAvailVerifyCode(Some(JStr(" 123456"))) && !IsAbailCode(Some(" 123456"))
  {
    var d := "123456";
    assert Patterns.IsSixDigits(d) by {
      assert forall k :: 0 <= k < 6 ==> Strings.IsDigit(d[k]);
    }
    assert " " + d == " 123456";
    LeadingSpaceCode(d);
  }

  /** Six digits after a space: the client trims the space and accepts the code, the backend
      counts seven characters and rejects it. */
  lemma LeadingSpaceCode(d: string)
    requires Patterns.IsSixDigits(d)
    ensures ParamCheckJs.IsAvailVerifyCode(Some(JStr(" " + d))) && !IsAbailCode(Some(" " + d))
  {
    var t := " " + d;
    TrimLeadingSpace(d);
    CodeDiffers(t);
    assert |t| == 7;
  }

  lemma TrimLeadingSpace(d: string)
    requires Patterns.IsSixDigits(d)
    ensures Strings.Trim(" " + d) == d
  {
    var t := " " + d;
    assert t[0] == ' ' && t[1..] == d;
    assert !Strings.IsJsSpace(d[0]) && !Strings.IsJsSpace(d[5]);
    assert Strings.TrimStartWith(t, Strings.IsJsSpace) == Strings.TrimStartWith(d, Strings.IsJsSpace);
    Strings.TrimOfTrimmed(d);
  }

  /** The two blank tests use different notions of white space: a no-break space is blank to the
      client only, a control character to the backend only. */
  lemma BlankDiffers()
    ensures ParamCheckJs.IsNullOrEmpty(Some(JStr("\U{00A0}"))) && !IsNullOrEmpty(Some("\U{00A0}"))
    ensures !ParamCheckJs.IsNullOrEmpty(Some(JStr("\U{0001}"))) && IsNullOrEmpty(Some("\U{0001}"))
  {
    BlankOne("\U{00A0}");
    BlankOne("\U{0001}");
  }

  /** On a single character the client's blank test is JavaScript white space, the backend's a
      character at or below U+0020. */
  lemma BlankOne(s: string)
    requires |s| == 1
    ensures ParamCheckJs.IsNullOrEmpty(Some(JStr(s))) <==> Strings.IsJsSpace(s[0])
    ensures IsNullOrEmpty(Some(s)) <==> s[0] as int <= 0x20
  {
    assert ValueString(Some(JStr(s))) == s;
    assert Strings.AllWith(s, Strings.IsJsSpace) <==> Strings.IsJsSpace(s[0]);
  }
}
