/** The string built-ins the core relies on, stated over `seq<char>`:
    `trim`, `split` on one character, `includes`, `startsWith`, `lastIndexOf("\n\n")`
    and decimal digits. */
module Strings {

  /** JavaScript's WhiteSpace and LineTerminator characters: what `String.prototype.trim`
      removes and what the regular-expression class `\s` matches. */
  predicate IsJsSpace(c: char) {
    var n := c as int;
    n == 0x09 || n == 0x0A || n == 0x0B || n == 0x0C || n == 0x0D || n == 0x20 || n == 0xA0
    || n == 0x1680 || (0x2000 <= n <= 0x200A) || n == 0x2028 || n == 0x2029 || n == 0x202F
    || n == 0x205F || n == 0x3000 || n == 0xFEFF
  }

  /** What Java's `String.trim` removes: every character at or below U+0020. */
  predicate IsJavaTrimmed(c: char) {
    c as int <= 0x20
  }

  /** Drops the leading characters that satisfy `sp`. */
  function TrimStartWith(s: string, sp: char -> bool): (r: string)
    ensures |r| <= |s| && r == s[|s| - |r|..]
    ensures r == [] || !sp(r[0])
    decreases |s|
  {
    if s != [] && sp(s[0]) then TrimStartWith(s[1..], sp) else s
  }

  /** Drops the trailing characters that satisfy `sp`. */
  function TrimEndWith(s: string, sp: char -> bool): (r: string)
    ensures |r| <= |s| && r == s[..|r|]
    ensures r == [] || !sp(r[|r| - 1])
    decreases |s|
  {
    if s != [] && sp(s[|s| - 1]) then TrimEndWith(s[..|s| - 1], sp) else s
  }

  /** Both ends: the longest middle slice that neither starts nor ends with `sp`. */
  function TrimWith(s: string, sp: char -> bool): (r: string)
  {
    TrimEndWith(TrimStartWith(s, sp), sp)
  }

  /** `s.trim()` in JavaScript. */
  function Trim(s: string): (r: string)
  {
    TrimWith(s, IsJsSpace)
  }

  /** `s.trim()` in Java. */
  function JavaTrim(s: string): (r: string)
  {
    TrimWith(s, IsJavaTrimmed)
  }

  /** Neither end of `s` is JavaScript white space: what `trim` returns. */
  predicate IsTrimmed(s: string) {
    s == [] || (!IsJsSpace(s[0]) && !IsJsSpace(s[|s| - 1]))
  }

  lemma TrimIsTrimmed(s: string)
    ensures IsTrimmed(Trim(s))
  {
    var u := TrimStartWith(s, IsJsSpace);
    var r := TrimEndWith(u, IsJsSpace);
    if r != [] {
      assert r[0] == u[0];
    }
  }

  /** `trim` leaves a trimmed string alone. */
  lemma TrimOfTrimmed(s: string)
    requires IsTrimmed(s)
    ensures Trim(s) == s
  {
    assert TrimStartWith(s, IsJsSpace) == s;
  }

  /** Every character of `s` satisfies `sp`: the strings `TrimWith` reduces to "". */
  predicate AllWith(s: string, sp: char -> bool) {
    forall k :: 0 <= k < |s| ==> sp(s[k])
  }

  /** What `TrimStartWith` drops satisfies `sp`. */
  lemma {:induction false} TrimStartDrops(s: string, sp: char -> bool)
    ensures forall k :: 0 <= k < |s| - |TrimStartWith(s, sp)| ==> sp(s[k])
    decreases |s|
  {
    if s != [] && sp(s[0]) {
      TrimStartDrops(s[1..], sp);
    }
  }

  /** What `TrimEndWith` drops satisfies `sp`. */
  lemma {:induction false} TrimEndDrops(s: string, sp: char -> bool)
    ensures forall k :: |TrimEndWith(s, sp)| <= k < |s| ==> sp(s[k])
    decreases |s|
  {
    if s != [] && sp(s[|s| - 1]) {
      TrimEndDrops(s[..|s| - 1], sp);
    }
  }

  lemma TrimEmptyIff(s: string, sp: char -> bool)
    ensures TrimWith(s, sp) == [] <==> AllWith(s, sp)
  {
    TrimStartDrops(s, sp);
    TrimEndDrops(TrimStartWith(s, sp), sp);
    var a := TrimStartWith(s, sp);
    var d := |s| - |a|;
    assert forall k :: 0 <= k < |a| ==> a[k] == s[d + k];
    if a != [] {
      assert a[0] == s[d];
    }
  }

  /** Whether `p` is a prefix of `s`: `s.startsWith(p)`. */
  predicate StartsWith(s: string, p: string) {
    |p| <= |s| && s[..|p|] == p
  }

  /** Whether `p` is a suffix of `s`: `s.endsWith(p)`. */
  predicate EndsWith(s: string, p: string) {
    |p| <= |s| && s[|s| - |p|..] == p
  }

  /** `s.includes(sub)`: `sub` occurs at some position of `s`. */
  predicate Contains(s: string, sub: string) {
    exists i | 0 <= i <= |s| - |sub| :: OccursAt(s, sub, i)
  }

  /** `sub` occurs in `s` starting at position `i`. */
  predicate OccursAt(s: string, sub: string, i: int) {
    0 <= i <= |s| - |sub| && s[i..i + |sub|] == sub
  }

  /** What occurs in `t` occurs in every extension of `t`. */
  lemma ContainsExtended(t: string, u: string, sub: string)
    requires Contains(t, sub)
    ensures Contains(t + u, sub)
  {
    var i :| 0 <= i <= |t| - |sub| && OccursAt(t, sub, i);
    assert (t + u)[i..i + |sub|] == t[i..i + |sub|];
    assert OccursAt(t + u, sub, i);
  }

  /** `sep` joined between the parts: the inverse of `Split`. */
  function Join(parts: seq<string>, sep: char): string
    requires |parts| >= 1
  {
    if |parts| == 1 then parts[0] else parts[0] + [sep] + Join(parts[1..], sep)
  }

  /** `s.split(sep)` for a one-character separator. */
  function Split(s: string, sep: char): (parts: seq<string>)
    ensures |parts| >= 1
    decreases |s|
  {
    if s == [] then [[]]
    else
      var rest := Split(s[1..], sep);
      if s[0] == sep then [[]] + rest else [[s[0]] + rest[0]] + rest[1..]
  }

  lemma {:induction false} JoinSplit(s: string, sep: char)
    ensures Join(Split(s, sep), sep) == s
    decreases |s|
  {
    if s != [] {
      var rest := Split(s[1..], sep);
      JoinSplit(s[1..], sep);
      if s[0] == sep {
        assert Split(s, sep)[1..] == rest;
      } else {
        var parts := Split(s, sep);
        if |rest| == 1 {
          assert parts == [[s[0]] + rest[0]];
        } else {
          assert parts[1..] == rest[1..];
          assert Join(rest, sep) == rest[0] + [sep] + Join(rest[1..], sep);
        }
      }
    }
  }

  /** A string without the separator is one part. */
  lemma {:induction false} SplitNoSep(s: string, sep: char)
    requires sep !in s
    ensures Split(s, sep) == [s]
    decreases |s|
  {
    if s != [] {
      SplitNoSep(s[1..], sep);
      assert [s[0]] + s[1..] == s;
    }
  }

  /** One step of `Split`: the first character either ends the first part or joins it. */
  lemma SplitCons(x: char, t: string, sep: char)
    ensures Split([x] + t, sep) == if x == sep then [[]] + Split(t, sep)
                                   else [[x] + Split(t, sep)[0]] + Split(t, sep)[1..]
  {
    assert ([x] + t)[1..] == t;
  }

  /** Prepending one character keeps `Split` distributing over `ra + rb`. */
  lemma SplitConsAppend(x: char, ra: seq<string>, rb: seq<string>, sep: char)
    requires |ra| >= 1
    ensures (if x == sep then [[]] + (ra + rb) else [[x] + (ra + rb)[0]] + (ra + rb)[1..])
         == (if x == sep then [[]] + ra else [[x] + ra[0]] + ra[1..]) + rb
  {
    if x != sep {
      assert (ra + rb)[0] == ra[0];
      assert (ra + rb)[1..] == ra[1..] + rb;
    }
  }

  /** Splitting distributes over a separator occurrence. */
  lemma {:induction false} SplitAround(a: string, sep: char, b: string)
    ensures Split(a + [sep] + b, sep) == Split(a, sep) + Split(b, sep)
    decreases |a|
  {
    if a == [] {
      assert a + [sep] + b == [sep] + b;
      SplitCons(sep, b, sep);
    } else {
      var t := a[1..] + [sep] + b;
      assert a + [sep] + b == [a[0]] + t;
      assert a == [a[0]] + a[1..];
      SplitCons(a[0], t, sep);
      SplitCons(a[0], a[1..], sep);
      SplitAround(a[1..], sep, b);
      SplitConsAppend(a[0], Split(a[1..], sep), Split(b, sep), sep);
    }
  }

  /** Two consecutive line feeds start at `i`. */
  predicate PairAt(s: string, i: int) {
    0 <= i && i + 1 < |s| && s[i] == '\n' && s[i + 1] == '\n'
  }

  /** `s.lastIndexOf("\n\n")`: the last start of a double line feed, or -1. */
  function LastDoubleNewline(s: string): (k: int)
    ensures -1 <= k < |s|
    ensures k == -1 ==> forall i :: !PairAt(s, i)
    ensures k >= 0 ==> PairAt(s, k) && forall i :: k < i ==> !PairAt(s, i)
    decreases |s|
  {
    if |s| < 2 then -1
    else if PairAt(s, |s| - 2) then |s| - 2
    else
      var k := LastDoubleNewline(s[..|s| - 1]);
      assert forall i :: PairAt(s, i) && i < |s| - 2 ==> PairAt(s[..|s| - 1], i);
      k
  }

  predicate IsDigit(c: char) {
    '0' <= c <= '9'
  }

  predicate AllDigits(s: string) {
    forall k :: 0 <= k < |s| ==> IsDigit(s[k])
  }

  function DigitValue(c: char): nat
    requires IsDigit(c)
  {
    c as int - '0' as int
  }

  function DigitChar(d: nat): (c: char)
    requires d < 10
    ensures IsDigit(c) && DigitValue(c) == d
  {
    ('0' as int + d) as char
  }

  /** The value of a run of decimal digits, as `Number("0042")` reads it. */
  function DigitsValue(s: string): nat
    requires AllDigits(s)
  {
    if s == [] then 0 else DigitsValue(s[..|s| - 1]) * 10 + DigitValue(s[|s| - 1])
  }

  /** `10^w`. */
  function Pow10(w: nat): (p: nat)
    ensures p >= 1
  {
    if w == 0 then 1 else 10 * Pow10(w - 1)
  }

  /** The canonical decimal form of `n`, as `String(n)` writes it. */
  function NatToString(n: nat): (r: string)
    ensures |r| >= 1 && AllDigits(r)
    ensures r[0] == '0' ==> r == "0"
  {
    if n < 10 then [DigitChar(n)] else NatToString(n / 10) + [DigitChar(n % 10)]
  }

  lemma {:induction false} NatToStringValue(n: nat)
    ensures DigitsValue(NatToString(n)) == n
  {
    if n >= 10 {
      NatToStringValue(n / 10);
      var r := NatToString(n);
      assert r[..|r| - 1] == NatToString(n / 10);
    }
  }

  /** `String(n)` for any integer. */
  function IntToString(n: int): (r: string)
    ensures |r| >= 1
  {
    if n < 0 then "-" + NatToString(-n) else NatToString(n)
  }

  /** A negative number is written as a minus sign and the digits of its magnitude. */
  lemma NegativeText(n: int)
    requires n < 0
    ensures IntToString(n)[0] == '-' && IntToString(n)[1..] == NatToString(-n)
  {
    assert ("-" + NatToString(-n))[1..] == NatToString(-n);
  }

  /** Digits after the first character: every character from the second on is a digit. */
  lemma DigitsAfterFirst(t: string)
    requires |t| >= 1 && AllDigits(t[1..])
    ensures forall k :: 1 <= k < |t| ==> IsDigit(t[k])
  {
    forall k | 1 <= k < |t|
      ensures IsDigit(t[k])
    {
      assert t[k] == t[1..][k - 1];
    }
  }

  /** Concatenation of a sequence of strings. */
  function Concat(parts: seq<string>): string {
    if parts == [] then [] else Concat(parts[..|parts| - 1]) + parts[|parts| - 1]
  }

  lemma ConcatAppend(parts: seq<string>, p: string)
    ensures Concat(parts + [p]) == Concat(parts) + p
  {
    assert (parts + [p])[..|parts|] == parts;
  }

  lemma {:induction false} ConcatSplitAt(parts: seq<string>, i: nat)
    requires i <= |parts|
    ensures Concat(parts) == Concat(parts[..i]) + Concat(parts[i..])
    decreases |parts|
  {
    if i < |parts| {
      var n := |parts|;
      ConcatSplitAt(parts[..n - 1], i);
      assert parts[..n - 1][..i] == parts[..i];
      assert parts[..n - 1][i..] == parts[i..n - 1];
      assert parts[i..][..|parts[i..]| - 1] == parts[i..n - 1];
    } else {
      assert parts[..i] == parts;
    }
  }
}
