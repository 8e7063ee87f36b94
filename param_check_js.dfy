/** The web client's input validators (`paramCheck.js`). Each accepts any value: `null` and
    `undefined` count as the empty string, anything else is converted with `String(v)`. */
module ParamCheckJs {
  import opened Wrappers
  import opened Json
  import Strings
  import Patterns

  /** `v == null ? '' : String(v)`. */
  function Text(v: Option<Json>): string {
    if IsNullish(v) then "" else ValueString(v)
  }

  /** `isNullOrEmpty`: `null`, `undefined`, or a value whose string trims to nothing. */
  function IsNullOrEmpty(param: Option<Json>): (r: bool)
    ensures r <==> IsNullish(param) || Strings.AllWith(ValueString(param), Strings.IsJsSpace)
  {
    Strings.TrimEmptyIff(ValueString(param), Strings.IsJsSpace);
    IsNullish(param) || Strings.Trim(ValueString(param)) == ""
  }

  /** `isAvailEmail`. */
  function IsAvailEmail(email: Option<Json>): (r: bool)
    ensures r <==> Patterns.MatchesEmail(Text(email))
  {
    Patterns.EmailDecides(Text(email));
    Patterns.IsEmail(Text(email))
  }

  /** `isAbailPassword`: an upper-case letter, a digit, a special character, and eight characters. */
  function IsAbailPassword(password: Option<Json>): (r: bool)
    ensures r ==> |Text(password)| >= 8
    ensures r <==> (exists k :: 0 <= k < |Text(password)| && Patterns.IsUpper(Text(password)[k]))
                   && (exists k :: 0 <= k < |Text(password)| && Strings.IsDigit(Text(password)[k]))
                   && (exists k :: 0 <= k < |Text(password)| && Patterns.IsSpecial(Text(password)[k]))
                   && |Text(password)| >= 8
  {
    var s := Text(password);
    if !Patterns.HasChar(s, Patterns.IsUpper) then false
    else if !Patterns.HasChar(s, Strings.IsDigit) then false
    else if !Patterns.HasChar(s, Patterns.IsSpecial) then false
    else |s| >= 8
  }

  /** `isAbailUsername`: word characters only, 3 to 30 of them. */
  function IsAbailUsername(username: Option<Json>): (r: bool)
    ensures r <==> 3 <= |Text(username)| <= 30 && forall k :: 0 <= k < |Text(username)| ==> Patterns.IsWord(Text(username)[k])
  {
    var s := Text(username);
    if !Patterns.IsWordRun(s) then false else 3 <= |s| <= 30
  }

  /** `isAvailVerifyCode`: six digits once trimmed. */
  function IsAvailVerifyCode(code: Option<Json>): (r: bool)
    ensures r <==> !IsNullish(code) && Patterns.IsSixDigits(Strings.Trim(ValueString(code)))
  {
    var s := if IsNullish(code) then "" else Strings.Trim(ValueString(code));
    Patterns.IsSixDigits(s)
  }
}
