/** The regular expressions the input validators of the web client and of the Java backend share,
    stated as predicates on strings: the character classes, the e-mail pattern
    `^[a-zA-Z0-9._%+-]+@[a-zA-Z0-9.-]+\.[a-zA-Z]{2,}$`, `^\w+$` and `^\d{6}$`. */
module Patterns {
  import Strings

  predicate IsAsciiLetter(c: char) {
    'a' <= c <= 'z' || 'A' <= c <= 'Z'
  }

  predicate IsUpper(c: char) {
    'A' <= c <= 'Z'
  }

  /** `\w` (ASCII in both languages). */
  predicate IsWord(c: char) {
    IsAsciiLetter(c) || Strings.IsDigit(c) || c == '_'
  }

  /** `[!@#$%^&*(),.?:{}|<>]`. */
  predicate IsSpecial(c: char) {
    c in "!@#$%^&*(),.?:{}|<>"
  }

  /** `[a-zA-Z0-9._%+-]`, the characters before the `@`. */
  predicate IsLocalChar(c: char) {
    IsAsciiLetter(c) || Strings.IsDigit(c) || c in "._%+-"
  }

  /** `[a-zA-Z0-9.-]`, the characters of the domain before its last dot. */
  predicate IsDomainChar(c: char) {
    IsAsciiLetter(c) || Strings.IsDigit(c) || c == '.' || c == '-'
  }

  /** Some character of `s` satisfies `p`: what a search for one character class finds. */
  predicate HasChar(s: string, p: char -> bool) {
    exists k :: 0 <= k < |s| && p(s[k])
  }

  /** Every character of `s[i..j]` satisfies `p`. */
  predicate AllIn(s: string, i: int, j: int, p: char -> bool)
    requires 0 <= i <= j <= |s|
  {
    forall k :: i <= k < j ==> p(s[k])
  }

  /** The e-mail pattern matches `s` with the `@` at `a` and the dot before the top-level domain
      at `d`. */
  predicate EmailAt(s: string, a: int, d: int) {
    && 0 < a && a + 1 < d && d + 3 <= |s|
    && s[a] == '@' && s[d] == '.'
    && AllIn(s, 0, a, IsLocalChar)
    && AllIn(s, a + 1, d, IsDomainChar)
    && AllIn(s, d + 1, |s|, IsAsciiLetter)
  }

  /** The e-mail pattern matches the whole of `s`: some way of placing `@` and the last dot
      works. */
  predicate MatchesEmail(s: string) {
    exists a, d :: 0 <= a < |s| && 0 <= d < |s| && EmailAt(s, a, d)
  }

  /** The first index of `c` in `s`, or -1. */
  function IndexOf(s: string, c: char): (i: int)
    ensures i == -1 || (0 <= i < |s| && s[i] == c)
    ensures forall k :: 0 <= k < |s| && (i == -1 || k < i) ==> s[k] != c
  {
    if s == [] then -1
    else if s[0] == c then 0
    else var j := IndexOf(s[1..], c); if j == -1 then -1 else j + 1
  }

  /** The last index of `c` in `s`, or -1. */
  function LastIndexOf(s: string, c: char): (i: int)
    ensures i == -1 || (0 <= i < |s| && s[i] == c)
    ensures forall k :: 0 <= k < |s| && i < k ==> s[k] != c
  {
    if s == [] then -1
    else if s[|s| - 1] == c then |s| - 1
    else LastIndexOf(s[..|s| - 1], c)
  }

  /** The e-mail test, decided directly: the `@` must be the first one and the dot the last one,
      because neither class before them holds an `@` and the letters after the dot hold no dot. */
  predicate IsEmail(s: string) {
    var a := IndexOf(s, '@');
    var d := LastIndexOf(s, '.');
    a != -1 && d != -1 && EmailAt(s, a, d)
  }

  /** The direct test agrees with the pattern on every string. */
  lemma EmailDecides(s: string)
    ensures IsEmail(s) <==> MatchesEmail(s)
  {
    if MatchesEmail(s) {
      var a, d :| 0 <= a < |s| && 0 <= d < |s| && EmailAt(s, a, d);
      var a0 := IndexOf(s, '@');
      var d0 := LastIndexOf(s, '.');
      assert !IsLocalChar('@') && !IsAsciiLetter('.');
      assert a0 == a;
      assert d0 == d;
    }
  }

  /** `^\w+$`. */
  predicate IsWordRun(s: string) {
    s != [] && AllIn(s, 0, |s|, IsWord)
  }

  /** `^\d{6}$`. */
  predicate IsSixDigits(s: string) {
    |s| == 6 && Strings.AllDigits(s)
  }
}
