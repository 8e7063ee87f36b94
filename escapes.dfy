/** The two text-escaping helpers shared by the chat relay and the prompt-suggestion route:
    `decodeEscapedText`, which undoes the double escaping some upstream replies carry, and
    `escapeForDisplay`, which makes control characters visible. Both routes define them alike. */
module Escapes {
  import Strings

  const Backslash: char := 0x5C as char
  const LF: char := 0x0A as char
  const CR: char := 0x0D as char
  const TAB: char := 0x09 as char

  predicate IsHexDigit(c: char) {
    ('0' <= c <= '9') || ('a' <= c <= 'f') || ('A' <= c <= 'F')
  }

  function HexDigitValue(c: char): (v: nat)
    requires IsHexDigit(c)
    ensures v < 16
  {
    if '0' <= c <= '9' then c as int - '0' as int
    else if 'a' <= c <= 'f' then c as int - 'a' as int + 10
    else c as int - 'A' as int + 10
  }

  /** `parseInt(hex, 16)` for four hexadecimal digits. */
  function Hex4Value(h: string): (v: nat)
    requires |h| == 4 && forall k :: 0 <= k < 4 ==> IsHexDigit(h[k])
    ensures v < 0x10000
  {
    ((HexDigitValue(h[0]) * 16 + HexDigitValue(h[1])) * 16 + HexDigitValue(h[2])) * 16 + HexDigitValue(h[3])
  }

  /** The lower-case hexadecimal digit of a value below 16. */
  function LowerHexDigit(v: nat): (c: char)
    requires v < 16
    ensures IsHexDigit(c) && HexDigitValue(c) == v
  {
    if v < 10 then ('0' as int + v) as char else ('a' as int + v - 10) as char
  }

  /** A `\uXXXX` escape starts the text: a backslash, `u`, and four hexadecimal digits naming a
      character (the surrogate range U+D800..U+DFFF names half characters and is left as is). */
  predicate UnicodeEscapeAt(s: string) {
    |s| >= 6 && s[0] == Backslash && s[1] == 'u'
    && (forall k :: 2 <= k < 6 ==> IsHexDigit(s[k]))
    && !(0xD800 <= Hex4Value(s[2..6]) <= 0xDFFF)
  }

  /** `replace(/\\u([0-9a-fA-F]{4})/g, ...)`: each escape, scanning left to right, becomes its
      character. */
  function DecodeUnicodeEscapes(s: string): (r: string)
    ensures |r| <= |s| && (s != [] ==> r != [])
    decreases |s|
  {
    if s == [] then []
    else if UnicodeEscapeAt(s) then [Hex4Value(s[2..6]) as char] + DecodeUnicodeEscapes(s[6..])
    else [s[0]] + DecodeUnicodeEscapes(s[1..])
  }

  /** `replace(/\\x/g, ch)` for a letter `x`: each backslash-letter pair, scanning left to right,
      becomes `ch`. */
  function ReplaceEscape(s: string, letter: char, ch: char): (r: string)
    ensures |r| <= |s| && (s != [] ==> r != [])
    decreases |s|
  {
    if s == [] then []
    else if |s| >= 2 && s[0] == Backslash && s[1] == letter then [ch] + ReplaceEscape(s[2..], letter, ch)
    else [s[0]] + ReplaceEscape(s[1..], letter, ch)
  }

  /** `decodeEscapedText`: the empty string unchanged; otherwise the `\uXXXX` pass when the text
      holds `\u`, then the `\n`, `\r` and `\t` passes when it holds any of them. */
  function DecodeEscapedText(s: string): (r: string)
    ensures |r| <= |s| && (s != [] ==> r != [])
  {
    if s == [] then s
    else
      var out := if Strings.Contains(s, [Backslash, 'u']) then DecodeUnicodeEscapes(s) else s;
      if Strings.Contains(out, [Backslash, 'n']) || Strings.Contains(out, [Backslash, 'r'])
         || Strings.Contains(out, [Backslash, 't'])
      then ReplaceEscape(ReplaceEscape(ReplaceEscape(out, 'n', LF), 'r', CR), 't', TAB)
      else out
  }

  lemma {:induction false} ReplaceWithoutEscape(s: string, letter: char, ch: char)
    requires !Strings.Contains(s, [Backslash, letter])
    ensures ReplaceEscape(s, letter, ch) == s
    decreases |s|
  {
    if s != [] {
      if |s| >= 2 {
        assert !Strings.OccursAt(s, [Backslash, letter], 0);
        assert s[0..2] == [s[0], s[1]];
      }
      assert !Strings.Contains(s[1..], [Backslash, letter]) by {
        if Strings.Contains(s[1..], [Backslash, letter]) {
          var i :| 0 <= i <= |s[1..]| - 2 && Strings.OccursAt(s[1..], [Backslash, letter], i);
          assert s[i + 1..i + 3] == s[1..][i..i + 2];
          assert Strings.OccursAt(s, [Backslash, letter], i + 1);
        }
      }
      ReplaceWithoutEscape(s[1..], letter, ch);
    }
  }

  lemma {:induction false} UnicodeWithoutEscape(s: string)
    requires !Strings.Contains(s, [Backslash, 'u'])
    ensures DecodeUnicodeEscapes(s) == s
    decreases |s|
  {
    if s != [] {
      if UnicodeEscapeAt(s) {
        assert Strings.OccursAt(s, [Backslash, 'u'], 0);
      }
      assert !Strings.Contains(s[1..], [Backslash, 'u']) by {
        if Strings.Contains(s[1..], [Backslash, 'u']) {
          var i :| 0 <= i <= |s[1..]| - 2 && Strings.OccursAt(s[1..], [Backslash, 'u'], i);
          assert s[i + 1..i + 3] == s[1..][i..i + 2];
          assert Strings.OccursAt(s, [Backslash, 'u'], i + 1);
        }
      }
      UnicodeWithoutEscape(s[1..]);
    }
  }

  /** The `includes` guards only save work: decoding is the four passes, unconditionally. */
  lemma GuardsAreShortcuts(s: string)
    ensures DecodeEscapedText(s)
         == ReplaceEscape(ReplaceEscape(ReplaceEscape(DecodeUnicodeEscapes(s), 'n', LF), 'r', CR), 't', TAB)
  {
    if s == [] {
    } else {
      if !Strings.Contains(s, [Backslash, 'u']) {
        UnicodeWithoutEscape(s);
      }
      var out := DecodeUnicodeEscapes(s);
      if !(Strings.Contains(out, [Backslash, 'n']) || Strings.Contains(out, [Backslash, 'r'])
           || Strings.Contains(out, [Backslash, 't'])) {
        ReplaceWithoutEscape(out, 'n', LF);
        ReplaceWithoutEscape(out, 'r', CR);
        ReplaceWithoutEscape(out, 't', TAB);
      }
    }
  }

  /** A text without backslashes decodes to itself. */
  lemma {:induction false} NoBackslashUnchanged(s: string)
    requires Backslash !in s
    ensures DecodeEscapedText(s) == s
  {
    GuardsAreShortcuts(s);
    NoBackslashPasses(s);
  }

  lemma {:induction false} NoBackslashPasses(s: string)
    requires Backslash !in s
    ensures DecodeUnicodeEscapes(s) == s
    ensures ReplaceEscape(s, 'n', LF) == s && ReplaceEscape(s, 'r', CR) == s && ReplaceEscape(s, 't', TAB) == s
    decreases |s|
  {
    if s != [] {
      assert s[0] != Backslash;
      NoBackslashPasses(s[1..]);
    }
  }

  /** A `\uXXXX` escape decodes to the character it names. */
  lemma UnicodeEscapeDecodes(h: string, rest: string)
    requires |h| == 4 && forall k :: 0 <= k < 4 ==> IsHexDigit(h[k])
    requires !(0xD800 <= Hex4Value(h) <= 0xDFFF)
    ensures DecodeUnicodeEscapes([Backslash, 'u'] + h + rest)
         == [Hex4Value(h) as char] + DecodeUnicodeEscapes(rest)
  {
    var s := [Backslash, 'u'] + h + rest;
    assert s[2..6] == h;
    assert s[6..] == rest;
  }

  /** `escapeForDisplay`: the control characters matched by the last of its five passes. */
  predicate IsOtherControl(c: char) {
    var n := c as int;
    (0 <= n <= 0x08) || n == 0x0B || n == 0x0C || (0x0E <= n <= 0x1F) || n == 0x7F
  }

  /** A character that must not appear raw in displayed text: U+0000..U+001F and U+007F. */
  predicate IsControl(c: char) {
    c as int <= 0x1F || c as int == 0x7F
  }

  /** Each character replaced by a string. */
  function MapChars(f: char -> string, s: string): string
    decreases |s|
  {
    if s == [] then [] else f(s[0]) + MapChars(f, s[1..])
  }

  lemma {:induction false} MapCharsAppend(f: char -> string, a: string, b: string)
    ensures MapChars(f, a + b) == MapChars(f, a) + MapChars(f, b)
    decreases |a|
  {
    if a != [] {
      assert (a + b)[0] == a[0];
      assert (a + b)[1..] == a[1..] + b;
      MapCharsAppend(f, a[1..], b);
      assert MapChars(f, a + b) == f(a[0]) + (MapChars(f, a[1..]) + MapChars(f, b));
    } else {
      assert a + b == b;
    }
  }

  /** The five passes of `escapeForDisplay`, one character each. */
  function DoubleBackslash(c: char): string { if c == Backslash then [Backslash, Backslash] else [c] }
  function EscapeCR(c: char): string { if c == CR then [Backslash, 'r'] else [c] }
  function EscapeLF(c: char): string { if c == LF then [Backslash, 'n'] else [c] }
  function EscapeTab(c: char): string { if c == TAB then [Backslash, 't'] else [c] }
  function EscapeOtherControl(c: char): string {
    if IsOtherControl(c) then [Backslash, 'x', LowerHexDigit(c as int / 16), LowerHexDigit(c as int % 16)] else [c]
  }

  /** `escapeForDisplay`: the five `replace` passes in source order. */
  function EscapeForDisplay(s: string): string {
    MapChars(EscapeOtherControl, MapChars(EscapeTab, MapChars(EscapeLF, MapChars(EscapeCR, MapChars(DoubleBackslash, s)))))
  }

  /** What the five passes together do to one character. */
  function EscapeChar(c: char): (r: string)
    ensures forall k :: 0 <= k < |r| ==> !IsControl(r[k])
    ensures r == [c] <==> c != Backslash && !IsControl(c)
  {
    if c == Backslash then [Backslash, Backslash]
    else if c == CR then [Backslash, 'r']
    else if c == LF then [Backslash, 'n']
    else if c == TAB then [Backslash, 't']
    else if IsOtherControl(c) then [Backslash, 'x', LowerHexDigit(c as int / 16), LowerHexDigit(c as int % 16)]
    else [c]
  }

  lemma {:induction false} MapCharsIdentity(f: char -> string, s: string)
    requires forall k :: 0 <= k < |s| ==> f(s[k]) == [s[k]]
    ensures MapChars(f, s) == s
    decreases |s|
  {
    if s != [] {
      MapCharsIdentity(f, s[1..]);
    }
  }

  lemma MapCharsSingle(f: char -> string, c: char)
    ensures MapChars(f, [c]) == f(c)
  {
    assert [c][1..] == [];
  }

  /** The five passes distribute over concatenation. */
  lemma EscapeAppend(a: string, b: string)
    ensures EscapeForDisplay(a + b) == EscapeForDisplay(a) + EscapeForDisplay(b)
  {
    MapCharsAppend(DoubleBackslash, a, b);
    var a1, b1 := MapChars(DoubleBackslash, a), MapChars(DoubleBackslash, b);
    MapCharsAppend(EscapeCR, a1, b1);
    var a2, b2 := MapChars(EscapeCR, a1), MapChars(EscapeCR, b1);
    MapCharsAppend(EscapeLF, a2, b2);
    var a3, b3 := MapChars(EscapeLF, a2), MapChars(EscapeLF, b2);
    MapCharsAppend(EscapeTab, a3, b3);
    var a4, b4 := MapChars(EscapeTab, a3), MapChars(EscapeTab, b3);
    MapCharsAppend(EscapeOtherControl, a4, b4);
  }

  /** On one character the five passes give `EscapeChar`: whatever one pass writes, the later
      passes leave alone. */
  lemma EscapeOne(c: char)
    ensures EscapeForDisplay([c]) == EscapeChar(c)
  {
    MapCharsSingle(DoubleBackslash, c);
    var x1 := DoubleBackslash(c);
    if c == CR || c == LF || c == TAB {
      MapCharsSingle(EscapeCR, c);
      var x2 := EscapeCR(c);
      if c == CR {
        MapCharsIdentity(EscapeLF, x2);
      } else {
        MapCharsSingle(EscapeLF, c);
      }
      var x3 := MapChars(EscapeLF, x2);
      if c == TAB {
        MapCharsSingle(EscapeTab, c);
      } else {
        MapCharsIdentity(EscapeTab, x3);
      }
      var x4 := MapChars(EscapeTab, x3);
      MapCharsIdentity(EscapeOtherControl, x4);
    } else {
      MapCharsIdentity(EscapeCR, x1);
      MapCharsIdentity(EscapeLF, x1);
      MapCharsIdentity(EscapeTab, x1);
      if c == Backslash {
        MapCharsIdentity(EscapeOtherControl, x1);
      } else {
        MapCharsSingle(EscapeOtherControl, c);
      }
    }
  }

  /** The passes in sequence act character by character as `EscapeChar`. */
  lemma {:induction false} EscapePerChar(s: string)
    ensures EscapeForDisplay(s) == MapChars(EscapeChar, s)
    decreases |s|
  {
    if s == [] {
      assert EscapeForDisplay(s) == [];
    } else {
      assert s == [s[0]] + s[1..];
      EscapeAppend([s[0]], s[1..]);
      EscapeOne(s[0]);
      EscapePerChar(s[1..]);
    }
  }

  /** Displayed text holds no raw control character. */
  lemma {:induction false} DisplayHasNoControl(s: string)
    ensures forall k :: 0 <= k < |EscapeForDisplay(s)| ==> !IsControl(EscapeForDisplay(s)[k])
  {
    EscapePerChar(s);
    EscapedCharsNoControl(s);
  }

  lemma {:induction false} EscapedCharsNoControl(s: string)
    ensures forall k :: 0 <= k < |MapChars(EscapeChar, s)| ==> !IsControl(MapChars(EscapeChar, s)[k])
    decreases |s|
  {
    if s != [] {
      EscapedCharsNoControl(s[1..]);
      var h, t := EscapeChar(s[0]), MapChars(EscapeChar, s[1..]);
      assert MapChars(EscapeChar, s) == h + t;
      forall k | 0 <= k < |h + t| ensures !IsControl((h + t)[k]) {
        if k >= |h| {
          assert (h + t)[k] == t[k - |h|];
        }
      }
    }
  }

  /** Text without backslashes or control characters is displayed as it is. */
  lemma {:induction false} PlainTextDisplayedAsIs(s: string)
    requires forall k :: 0 <= k < |s| ==> s[k] != Backslash && !IsControl(s[k])
    ensures EscapeForDisplay(s) == s
  {
    EscapePerChar(s);
    MapCharsIdentity(EscapeChar, s);
  }

  /** Reading displayed text back: `\\`, `\r`, `\n`, `\t` and `\xHH` stand for the characters they
      name, every other character for itself. */
  function ReadDisplayed(s: string): string
    decreases |s|
  {
    if s == [] then []
    else if |s| >= 2 && s[0] == Backslash && s[1] == Backslash then [Backslash] + ReadDisplayed(s[2..])
    else if |s| >= 2 && s[0] == Backslash && s[1] == 'r' then [CR] + ReadDisplayed(s[2..])
    else if |s| >= 2 && s[0] == Backslash && s[1] == 'n' then [LF] + ReadDisplayed(s[2..])
    else if |s| >= 2 && s[0] == Backslash && s[1] == 't' then [TAB] + ReadDisplayed(s[2..])
    else if |s| >= 4 && s[0] == Backslash && s[1] == 'x' && IsHexDigit(s[2]) && IsHexDigit(s[3])
    then [(HexDigitValue(s[2]) * 16 + HexDigitValue(s[3])) as char] + ReadDisplayed(s[4..])
    else [s[0]] + ReadDisplayed(s[1..])
  }

  lemma ReadEscapedChar(c: char, rest: string)
    ensures ReadDisplayed(EscapeChar(c) + rest) == [c] + ReadDisplayed(rest)
  {
    var e := EscapeChar(c) + rest;
    if c == Backslash || c == CR || c == LF || c == TAB {
      assert e[2..] == rest;
    } else if IsOtherControl(c) {
      assert e[4..] == rest;
    } else {
      assert e[1..] == rest;
    }
  }

  /** Escaping loses nothing: reading the displayed text gives back the original. */
  lemma {:induction false} DisplayRoundTrip(s: string)
    ensures ReadDisplayed(EscapeForDisplay(s)) == s
  {
    EscapePerChar(s);
    ReadEscapedAll(s);
  }

  lemma {:induction false} ReadEscapedAll(s: string)
    ensures ReadDisplayed(MapChars(EscapeChar, s)) == s
    decreases |s|
  {
    if s != [] {
      ReadEscapedChar(s[0], MapChars(EscapeChar, s[1..]));
      ReadEscapedAll(s[1..]);
    }
  }

  /** So different texts are displayed differently. */
  lemma DisplayInjective(s: string, t: string)
    requires EscapeForDisplay(s) == EscapeForDisplay(t)
    ensures s == t
  {
    DisplayRoundTrip(s);
    DisplayRoundTrip(t);
  }
}
