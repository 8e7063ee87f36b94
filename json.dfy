/** Decoded JSON values and the JavaScript operators the core applies to them:
    optional chaining `v?.key`, nullish coalescing `a ?? b`, truthiness, `Number(v)` and `String(v)`.
    `None` stands for `undefined`; `JNull` for `null`. */
module Json {
  import opened Wrappers
  import Strings

  /** A value produced by `JSON.parse`. Numbers are integers in this model. */
  datatype Json =
    | JNull
    | JBool(b: bool)
    | JNum(n: int)
    | JStr(s: string)
    | JArr(items: seq<Json>)
    | JObj(fields: map<string, Json>)

  /** An object with one string field, such as `{ type: 'done' }`. */
  function Obj1(k: string, v: Json): Json {
    JObj(map[k := v])
  }

  /** `v?.key`: a field of an object, `undefined` for everything else. */
  function Prop(v: Option<Json>, key: string): Option<Json> {
    if v.Some? && v.value.JObj? && key in v.value.fields then Some(v.value.fields[key]) else None
  }

  /** `v?.[k]`: an element of an array, `undefined` for everything else. */
  function At(v: Option<Json>, k: nat): Option<Json> {
    if v.Some? && v.value.JArr? && k < |v.value.items| then Some(v.value.items[k]) else None
  }

  /** `a` is `null` or `undefined`. */
  predicate IsNullish(a: Option<Json>) {
    a == None || a == Some(JNull)
  }

  /** JavaScript's `a === b` on decoded values. Primitives compare by value; every array or object
      `JSON.parse` returns is a fresh object, so it equals nothing it is compared with here. */
  predicate StrictEquals(a: Option<Json>, b: Option<Json>) {
    match (a, b)
    case (None, None) => true
    case (Some(JNull), Some(JNull)) => true
    case (Some(JBool(x)), Some(JBool(y))) => x == y
    case (Some(JNum(x)), Some(JNum(y))) => x == y
    case (Some(JStr(x)), Some(JStr(y))) => x == y
    case _ => false
  }

  /** On decoded values `===` holds only between equal primitives. */
  lemma StrictEqualsEqual(a: Option<Json>, b: Option<Json>)
    requires StrictEquals(a, b)
    ensures a == b && (a.Some? ==> !a.value.JArr? && !a.value.JObj?)
  {
  }

  /** `a ?? b`. */
  function Coalesce(a: Option<Json>, b: Option<Json>): Option<Json> {
    if IsNullish(a) then b else a
  }

  /** JavaScript truthiness: everything except `undefined`, `null`, `false`, `0` and `''`. */
  predicate Truthy(v: Option<Json>) {
    match v
    case None => false
    case Some(JNull) => false
    case Some(JBool(b)) => b
    case Some(JNum(n)) => n != 0
    case Some(JStr(s)) => s != ""
    case Some(_) => true
  }

  /** `a || b`. */
  function Or(a: Option<Json>, b: Option<Json>): (r: Option<Json>)
    ensures Truthy(r) <==> Truthy(a) || Truthy(b)
  {
    if Truthy(a) then a else b
  }

  /** `typeof v === 'string' && v.length > 0`, giving the string. */
  function NonEmptyString(v: Option<Json>): Option<string> {
    if v.Some? && v.value.JStr? && v.value.s != "" then Some(v.value.s) else None
  }

  /** The value of `c` as a digit of base `radix` (at most 16): `0`-`9`, then `a`-`f` in either
      case. */
  function RadixDigit(c: char, radix: nat): (d: Option<nat>)
    ensures d.Some? ==> d.value < radix
  {
    var v: int :=
      if '0' <= c <= '9' then c as int - '0' as int
      else if 'a' <= c <= 'f' then c as int - 'a' as int + 10
      else if 'A' <= c <= 'F' then c as int - 'A' as int + 10
      else radix;
    if 0 <= v < radix then Some(v) else None
  }

  /** A non-empty run of base-`radix` digits, most significant first. */
  function RadixValue(s: string, radix: nat): Option<nat> {
    if s == [] then None
    else
      var d := RadixDigit(s[|s| - 1], radix);
      if d.None? then None
      else if |s| == 1 then d
      else
        var h := RadixValue(s[..|s| - 1], radix);
        if h.None? then None else Some(h.value * radix + d.value)
  }

  /** The first index of a character satisfying `p`, or `|s|`. */
  function FirstWhere(s: string, p: char -> bool): (k: nat)
    ensures k <= |s| && (k < |s| ==> p(s[k]))
    ensures forall i :: 0 <= i < k ==> !p(s[i])
  {
    if s == [] then 0 else if p(s[0]) then 0 else 1 + FirstWhere(s[1..], p)
  }

  /** `FirstWhere` is the one index before which nothing satisfies `p` and at which something
      does, or the end. */
  lemma FirstWhereIs(s: string, p: char -> bool, k: nat)
    requires k <= |s| && (k < |s| ==> p(s[k]))
    requires forall i :: 0 <= i < k ==> !p(s[i])
    ensures FirstWhere(s, p) == k
  {
  }

  /** An optionally signed, non-empty run of decimal digits: the exponent of a decimal literal. */
  function SignedDigits(s: string): Option<int> {
    if s != [] && (s[0] == '+' || s[0] == '-') then
      if |s| > 1 && Strings.AllDigits(s[1..]) then
        var m: int := Strings.DigitsValue(s[1..]);
        Some(if s[0] == '-' then -m else m)
      else None
    else if s != [] && Strings.AllDigits(s) then Some(Strings.DigitsValue(s))
    else None
  }

  predicate IsExponentMark(c: char) {
    c == 'e' || c == 'E'
  }

  predicate IsPoint(c: char) {
    c == '.'
  }

  /** An unsigned decimal literal (`1`, `1.`, `.5`, `12.50e-1`, ...): digits with an optional
      fraction, at least one digit in all, and an optional exponent. Its value is `m * 10^e` for
      the digits `m` and the scale `e` returned. */
  function DecimalParts(t: string): Option<(nat, int)> {
    var e := FirstWhere(t, IsExponentMark);
    var exp := if e == |t| then Some(0) else SignedDigits(t[e + 1..]);
    var m := t[..e];
    var p := FirstWhere(m, IsPoint);
    var frac := if p < |m| then m[p + 1..] else "";
    var digits := m[..p] + frac;
    if exp.None? || digits == "" || !Strings.AllDigits(digits) then None
    else Some((Strings.DigitsValue(digits), exp.value - |frac|))
  }

  /** `m * 10^e` when that is a whole number. */
  function ScaledInt(m: nat, e: int): Option<nat> {
    if e >= 0 then Some(m * Strings.Pow10(e))
    else if m % Strings.Pow10(-e) == 0 then Some(m / Strings.Pow10(-e))
    else None
  }

  /** An unsigned decimal literal with a whole value. */
  function DecimalNumber(u: string): Option<nat> {
    var parts := DecimalParts(u);
    if parts.None? then None else ScaledInt(parts.value.0, parts.value.1)
  }

  /** A decimal literal after an optional sign. */
  function SignedDecimal(t: string): Option<int>
    requires t != ""
  {
    var u := if t[0] == '-' || t[0] == '+' then t[1..] else t;
    var v := DecimalNumber(u);
    if v.None? then None else var w: int := v.value; Some(if t[0] == '-' then -w else w)
  }

  /** `0x`, `0o` or `0b` in either case. */
  predicate IsRadixPrefixed(t: string) {
    |t| >= 2 && t[0] == '0' && t[1] in "xXoObB"
  }

  /** The digits after a radix prefix, read in that radix; there is no sign. */
  function RadixNumber(t: string): Option<int>
    requires IsRadixPrefixed(t)
  {
    var radix := if t[1] in "xX" then 16 else if t[1] in "oO" then 8 else 2;
    var v := RadixValue(t[2..], radix);
    if v.None? then None else Some(v.value)
  }

  /** `Number` of text with no white space at either end. */
  function NumberText(t: string): Option<int> {
    if t == "" then Some(0)
    else if IsRadixPrefixed(t) then RadixNumber(t)
    else SignedDecimal(t)
  }

  /** `Number(s)` for a string, trimmed first: blank is 0; `0x`, `0o` and `0b` introduce
      hexadecimal, octal and binary digits; otherwise an optionally signed decimal literal.
      Anything else is `NaN` (`None`), and so are the values the model's integers do not hold:
      a fraction such as `1.5`, and `Infinity`. */
  function StringToNumber(s: string): Option<int> {
    NumberText(Strings.Trim(s))
  }

  /** `Number(v)`, with `None` for `NaN`. An array or an object is first turned into its string,
      as `String(v)` writes it. */
  function ToNumber(v: Option<Json>): Option<int> {
    match v
    case None => None
    case Some(JNull) => Some(0)
    case Some(JBool(b)) => Some(if b then 1 else 0)
    case Some(JNum(n)) => Some(n)
    case Some(JStr(s)) => StringToNumber(s)
    case Some(x) => StringToNumber(JsString(x))
  }

  /** A plain run of digits is a decimal literal with no fraction and no exponent. */
  lemma DigitsParts(t: string)
    requires |t| >= 1 && Strings.AllDigits(t)
    ensures DecimalParts(t) == Some((Strings.DigitsValue(t), 0))
  {
    assert FirstWhere(t, IsExponentMark) == |t|;
    assert t[..|t|] == t;
    assert FirstWhere(t, IsPoint) == |t|;
    assert t[..|t|] + "" == t;
  }

  /** A minus sign before a decimal literal negates its value. */
  lemma NegatedNumber(t: string, v: nat)
    requires |t| >= 1 && t[0] == '-' && DecimalNumber(t[1..]) == Some(v)
    ensures NumberText(t) == Some(-(v as int))
  {
  }

  /** A run of digits is a decimal literal whose value is the digits' value. */
  lemma DigitsDecimal(d: string)
    requires |d| >= 1 && Strings.AllDigits(d)
    ensures DecimalNumber(d) == Some(Strings.DigitsValue(d))
  {
    DigitsParts(d);
  }

  /** A run of digits that does not start a radix prefix reads as its decimal value. */
  lemma DigitsNumber(d: string)
    requires |d| >= 1 && Strings.AllDigits(d) && (d[0] == '0' ==> d == "0")
    ensures NumberText(d) == Some(Strings.DigitsValue(d))
  {
    DigitsDecimal(d);
    assert !IsRadixPrefixed(d) by {
      assert Strings.IsDigit(d[0]);
      if |d| >= 2 { assert Strings.IsDigit(d[1]); }
    }
    assert Strings.IsDigit(d[0]);
  }

  /** The decimal text of an integer has no white space at either end. */
  lemma IntTextTrimmed(n: int)
    ensures Strings.Trim(Strings.IntToString(n)) == Strings.IntToString(n)
  {
    var s := Strings.IntToString(n);
    var d := Strings.NatToString(if n < 0 then -n else n);
    assert s[|s| - 1] == d[|d| - 1];
    assert Strings.IsDigit(d[|d| - 1]);
    assert Strings.IsTrimmed(s);
    Strings.TrimOfTrimmed(s);
  }

  /** The decimal text of an integer, read without trimming. */
  lemma {:induction false} IntTextNumber(n: int)
    ensures NumberText(Strings.IntToString(n)) == Some(n)
  {
    var m: nat := if n < 0 then -n else n;
    var d := Strings.NatToString(m);
    Strings.NatToStringValue(m);
    if n < 0 {
      Strings.NegativeText(n);
      DigitsDecimal(d);
      NegatedNumber(Strings.IntToString(n), m);
    } else {
      DigitsNumber(d);
    }
  }

  /** `Number(String(n)) == n`: the decimal text of an integer reads back as that integer. */
  lemma {:induction false} NumberOfIntToString(n: int)
    ensures StringToNumber(Strings.IntToString(n)) == Some(n)
  {
    IntTextTrimmed(n);
    IntTextNumber(n);
  }

  /** `String` of an array with one element is that element's string. */
  lemma SingletonString(x: Json)
    ensures JsString(JArr([x])) == if x == JNull then "" else JsString(x)
  {
    var one := seq(1, i requires 0 <= i < 1 => if [x][i] == JNull then "" else JsString([x][i]));
    assert JoinComma(one) == one[0];
  }

  /** An array reads as the string its elements join to: `Number([]) == 0`,
      `Number([n]) == Number(["n"]) == n` and `Number([null]) == 0`. */
  lemma ArrayNumbers(n: int)
    ensures ToNumber(Some(JArr([]))) == Some(0)
    ensures ToNumber(Some(JArr([JNum(n)]))) == Some(n)
    ensures ToNumber(Some(JArr([JStr(Strings.IntToString(n))]))) == Some(n)
    ensures ToNumber(Some(JArr([JNull]))) == Some(0)
  {
    NumberOfIntToString(n);
    SingletonString(JNum(n));
    SingletonString(JStr(Strings.IntToString(n)));
    SingletonString(JNull);
    assert JsString(JArr([])) == "";
  }

  /** Text that starts with anything but a digit, a point or a sign is `NaN`: `Infinity` among
      them, since the model's numbers are integers. */
  lemma NonNumericStart(t: string)
    requires |t| >= 1 && !Strings.IsDigit(t[0]) && t[0] !in ".+-"
    ensures NumberText(t) == None
  {
    var e := FirstWhere(t, IsExponentMark);
    var m := t[..e];
    var p := FirstWhere(m, IsPoint);
    if e > 0 {
      assert m[0] == t[0];
      if p > 0 {
        assert (m[..p] + (if p < |m| then m[p + 1..] else ""))[0] == t[0];
      }
    }
  }

  /** An object is `NaN`: its string is `[object Object]`. */
  lemma ObjectNumber(o: map<string, Json>)
    ensures ToNumber(Some(JObj(o))) == None
  {
    var t := "[object Object]";
    assert JsString(JObj(o)) == t;
    assert Strings.IsTrimmed(t);
    Strings.TrimOfTrimmed(t);
    NonNumericStart(t);
  }

  /** `Number("Infinity")` is `NaN` in the model. */
  lemma InfinityNumber()
    ensures StringToNumber("Infinity") == None
  {
    var t := "Infinity";
    assert Strings.IsTrimmed(t);
    Strings.TrimOfTrimmed(t);
    NonNumericStart(t);
  }

  /** `Number("0x10") == 16`: a hexadecimal literal. */
  lemma HexNumber()
    ensures NumberText("0x10") == Some(16)
  {
    var t := "0x10";
    assert t[2..] == "10" && "10"[..1] == "1";
  }

  /** `Number("-0x10")` is `NaN`: a radix literal takes no sign. */
  lemma SignedHexNumber()
    ensures NumberText("-0x10") == None
  {
    var u := "0x10";
    assert "-0x10"[1..] == u;
    FirstWhereIs(u, IsExponentMark, 4);
    assert u[..4] == u;
    FirstWhereIs(u, IsPoint, 4);
    assert u[..4] + "" == u;
  }

  lemma ExponentParts()
    ensures DecimalParts("1e3") == Some((1, 3))
  {
    var t := "1e3";
    FirstWhereIs(t, IsExponentMark, 1);
    assert t[2..] == "3" && t[..1] == "1";
    FirstWhereIs("1", IsPoint, 1);
    assert "1"[..1] + "" == "1";
  }

  /** `Number("1e3") == 1000`: an exponent. */
  lemma ExponentNumber()
    ensures NumberText("1e3") == Some(1000)
  {
    ExponentParts();
    assert Strings.Pow10(3) == 1000;
  }

  lemma FractionParts()
    ensures DecimalParts("12.0") == Some((120, -1))
  {
    var t := "12.0";
    FirstWhereIs(t, IsExponentMark, 4);
    assert t[..4] == t;
    FirstWhereIs(t, IsPoint, 2);
    assert t[..2] + t[3..] == "120";
    DigitsOf120();
  }

  lemma DigitsOf120()
    ensures Strings.DigitsValue("120") == 120
  {
    assert "120"[..2] == "12" && "12"[..1] == "1";
  }

  /** `Number("12.0") == 12`: a fraction that cancels. */
  lemma FractionNumber()
    ensures NumberText("12.0") == Some(12)
  {
    FractionParts();
    assert Strings.Pow10(1) == 10;
  }

  /** `Number(" 12.0 ") == 12`: white space around the literal is trimmed first. */
  lemma SpacedNumber()
    ensures StringToNumber(" 12.0 ") == Some(12)
  {
    var s, u, t := " 12.0 ", "12.0 ", "12.0";
    assert Strings.IsJsSpace(s[0]) && s[1..] == u;
    assert !Strings.IsJsSpace(u[0]);
    assert Strings.TrimStartWith(u, Strings.IsJsSpace) == u;
    assert Strings.TrimStartWith(s, Strings.IsJsSpace) == u;
    assert Strings.IsJsSpace(u[4]) && u[..4] == t;
    assert !Strings.IsJsSpace(t[3]);
    assert Strings.TrimEndWith(t, Strings.IsJsSpace) == t;
    assert Strings.TrimEndWith(u, Strings.IsJsSpace) == t;
    FractionNumber();
  }

  lemma NonIntegerParts()
    ensures DecimalParts("1.5") == Some((15, -1))
  {
    var t := "1.5";
    FirstWhereIs(t, IsExponentMark, 3);
    assert t[..3] == t;
    FirstWhereIs(t, IsPoint, 1);
    assert t[..1] + t[2..] == "15";
    assert Strings.DigitsValue("15") == 15 by {
      assert "15"[..1] == "1";
    }
  }

  /** `Number("1.5")` is not an integer: the model reads it as `NaN`. */
  lemma NonIntegerNumber()
    ensures NumberText("1.5") == None
  {
    NonIntegerParts();
    assert Strings.Pow10(1) == 10;
  }

  /** `Number(v) || d`: the number unless it is `0` or `NaN`. */
  function NumberOr(v: Option<Json>, d: int): (r: int)
    ensures r == d || (ToNumber(v) == Some(r) && r != 0)
    ensures ToNumber(v).Some? && ToNumber(v).value != 0 ==> r == ToNumber(v).value
  {
    match ToNumber(v)
    case Some(n) => if n != 0 then n else d
    case None => d
  }

  /** Elements joined with commas, as `Array.prototype.toString` writes them. */
  function JoinComma(parts: seq<string>): string {
    if parts == [] then "" else if |parts| == 1 then parts[0] else parts[0] + "," + JoinComma(parts[1..])
  }

  /** `String(v)` for a decoded value. */
  function JsString(v: Json): string
    decreases v
  {
    match v
    case JNull => "null"
    case JBool(b) => if b then "true" else "false"
    case JNum(n) => Strings.IntToString(n)
    case JStr(s) => s
    case JArr(items) =>
      JoinComma(seq(|items|, i requires 0 <= i < |items| =>
        if items[i] == JNull then "" else JsString(items[i])))
    case JObj(_) => "[object Object]"
  }

  /** `String(v)` where `v` may be `undefined`. */
  function ValueString(v: Option<Json>): string {
    match v
    case None => "undefined"
    case Some(j) => JsString(j)
  }

  /** `String(v || '')`. */
  function StringOrEmpty(v: Option<Json>): string {
    if Truthy(v) then ValueString(v) else ""
  }
}
