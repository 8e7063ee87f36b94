/** The score summary of a report table: `toNumberOrNull` (the first decimal number of a score
    cell), `extractMaxPoints` (the `（N分）` maximum in an item name) and `summarizeScoreTable`.
    Numbers are exact rationals here: the rounding of binary floating point is not modelled. */
module ScoreSummary {
  import opened Wrappers
  import opened Json
  import Strings
  import Seqs
  import MarkdownTable

  // ----- runs of characters -----

  /** How many characters from `i` on satisfy `p`: a greedy `p*`. */
  function RunOf(t: string, i: nat, p: char -> bool): (n: nat)
    requires i <= |t|
    ensures i + n <= |t|
    decreases |t| - i
  {
    if i < |t| && p(t[i]) then 1 + RunOf(t, i + 1, p) else 0
  }

  /** The run stops at the end or at a character that fails `p`. */
  lemma {:induction false} RunOfEnd(t: string, i: nat, p: char -> bool)
    requires i <= |t|
    ensures i + RunOf(t, i, p) == |t| || !p(t[i + RunOf(t, i, p)])
    decreases |t| - i
  {
    if i < |t| && p(t[i]) {
      RunOfEnd(t, i + 1, p);
    }
  }

  /** A run of digits is a string of digits. */
  lemma {:induction false} RunOfDigits(t: string, i: nat)
    requires i <= |t|
    ensures Strings.AllDigits(t[i..i + RunOf(t, i, Strings.IsDigit)])
    decreases |t| - i
  {
    var n := RunOf(t, i, Strings.IsDigit);
    if n > 0 {
      RunOfDigits(t, i + 1);
      assert t[i..i + n] == [t[i]] + t[i + 1..i + n];
    }
  }

  /** A run reaches the end when every character from `i` on satisfies `p`. */
  lemma {:induction false} RunOfAll(t: string, i: nat, p: char -> bool)
    requires i <= |t| && forall k :: i <= k < |t| ==> p(t[k])
    ensures RunOf(t, i, p) == |t| - i
    decreases |t| - i
  {
    if i < |t| {
      RunOfAll(t, i + 1, p);
    }
  }

  /** A run stops at the first character that fails `p`. */
  lemma {:induction false} RunOfStops(t: string, i: nat, p: char -> bool, j: nat)
    requires i <= j < |t| && !p(t[j]) && forall k :: i <= k < j ==> p(t[k])
    ensures RunOf(t, i, p) == j - i
    decreases j - i
  {
    if i < j {
      RunOfStops(t, i + 1, p, j);
    }
  }

  // ----- toNumberOrNull -----

  /** A match of `-?\d+(?:\.\d+)?`: its sign, its integer digits and its fraction digits (empty
      when the match has no fraction). */
  datatype Decimal = Decimal(negative: bool, whole: string, fraction: string)

  /** The text a match covers. */
  function DecimalText(d: Decimal): string {
    (if d.negative then "-" else "") + d.whole + (if d.fraction == "" then "" else "." + d.fraction)
  }

  /** `v` divided by ten `n` times: the value of digits placed `n` places after the point. */
  function Shift(v: real, n: nat): real {
    if n == 0 then v else Shift(v, n - 1) / 10.0
  }

  /** `Number` of the matched text. */
  function DecimalValue(d: Decimal): real
    requires Strings.AllDigits(d.whole) && Strings.AllDigits(d.fraction)
  {
    var m := Strings.DigitsValue(d.whole) as real
             + Shift(Strings.DigitsValue(d.fraction) as real, |d.fraction|);
    if d.negative then -m else m
  }

  /** The match of `-?\d+(?:\.\d+)?` that starts at `p`, if one does. The digit runs are greedy; a
      `-` without a digit after it starts no match, and a `.` without a digit after it is not part
      of the match. */
  function NumberAt(t: string, p: nat): (r: Option<Decimal>)
    requires p <= |t|
    ensures r.Some? ==> r.value.whole != "" && Strings.AllDigits(r.value.whole)
                        && Strings.AllDigits(r.value.fraction)
  {
    var s := if p < |t| && t[p] == '-' then 1 else 0;
    var w := RunOf(t, p + s, Strings.IsDigit);
    if w == 0 then None
    else
      var e := p + s + w;
      var f := if e < |t| && t[e] == '.' then RunOf(t, e + 1, Strings.IsDigit) else 0;
      RunOfDigits(t, p + s);
      if f > 0 then
        RunOfDigits(t, e + 1);
        Some(Decimal(s == 1, t[p + s..e], t[e + 1..e + 1 + f]))
      else
        Some(Decimal(s == 1, t[p + s..e], ""))
  }

  lemma SliceSplit(t: string, a: nat, b: nat, c: nat)
    requires a <= b <= c <= |t|
    ensures t[a..c] == t[a..b] + t[b..c]
  {
  }

  /** Where the parts of a match lie: the sign at `p`, the integer digits after it, then a point
      and the fraction digits when there is a fraction. */
  lemma NumberAtParts(t: string, p: nat)
    requires p <= |t| && NumberAt(t, p).Some?
    ensures var d := NumberAt(t, p).value;
            var e := p + (if d.negative then 1 else 0) + |d.whole|;
            e <= |t| && (d.negative ==> t[p] == '-')
            && t[p + (if d.negative then 1 else 0)..e] == d.whole
            && (d.fraction != "" ==> e + 1 + |d.fraction| <= |t| && t[e] == '.'
                                     && t[e + 1..e + 1 + |d.fraction|] == d.fraction)
  {
  }

  /** A match is the text at its position. */
  lemma NumberAtText(t: string, p: nat)
    requires p <= |t| && NumberAt(t, p).Some?
    ensures var d := NumberAt(t, p).value;
            p + |DecimalText(d)| <= |t| && t[p..p + |DecimalText(d)|] == DecimalText(d)
  {
    NumberAtParts(t, p);
    var d := NumberAt(t, p).value;
    TextOfParts(t, p, d);
  }

  /** A decimal whose parts lie in `t` from `p` on, as a match places them, is the text there. */
  lemma TextOfParts(t: string, p: nat, d: Decimal)
    requires var e := p + (if d.negative then 1 else 0) + |d.whole|;
             e <= |t| && (d.negative ==> t[p] == '-')
             && t[p + (if d.negative then 1 else 0)..e] == d.whole
             && (d.fraction != "" ==> e + 1 + |d.fraction| <= |t| && t[e] == '.'
                                      && t[e + 1..e + 1 + |d.fraction|] == d.fraction)
    ensures p + |DecimalText(d)| <= |t| && t[p..p + |DecimalText(d)|] == DecimalText(d)
  {
    var s := if d.negative then 1 else 0;
    var e := p + s + |d.whole|;
    var sign := if d.negative then "-" else "";
    assert t[p..p + s] == sign;
    SliceSplit(t, p, p + s, e);
    assert t[p..e] == sign + d.whole;
    if d.fraction != "" {
      var n := e + 1 + |d.fraction|;
      SliceSplit(t, e, e + 1, n);
      assert t[e..n] == "." + d.fraction;
      SliceSplit(t, p, e, n);
      assert DecimalText(d) == t[p..e] + t[e..n];
    } else {
      assert DecimalText(d) == t[p..e] + "";
    }
  }

  /** A match is as long as it can be: no digit follows it, and a match without a fraction is not
      followed by a point and a digit. */
  lemma NumberAtGreedy(t: string, p: nat)
    requires p <= |t| && NumberAt(t, p).Some?
    ensures var d := NumberAt(t, p).value;
            var n := p + |DecimalText(d)|;
            n <= |t| && (n == |t| || !Strings.IsDigit(t[n]))
            && (d.fraction == "" && n + 1 < |t| && t[n] == '.' ==> !Strings.IsDigit(t[n + 1]))
  {
    var s := if p < |t| && t[p] == '-' then 1 else 0;
    RunOfEnd(t, p + s, Strings.IsDigit);
    var e := p + s + RunOf(t, p + s, Strings.IsDigit);
    if e < |t| && t[e] == '.' {
      RunOfEnd(t, e + 1, Strings.IsDigit);
    }
  }

  /** Where the first number of `t` starts, or -1. */
  function FirstNumber(t: string): (p: int)
    ensures p == -1 || (0 <= p < |t| && NumberAt(t, p).Some?)
  {
    Seqs.FirstIndex(|t|, 0, (i: nat) => i <= |t| && NumberAt(t, i).Some?)
  }

  /** No number starts before the first one. */
  lemma FirstNumberLeast(t: string)
    ensures forall k :: 0 <= k < |t| && (FirstNumber(t) == -1 || k < FirstNumber(t)) ==> NumberAt(t, k).None?
  {
    var ok := (i: nat) => i <= |t| && NumberAt(t, i).Some?;
    var p := Seqs.FirstIndex(|t|, 0, ok);
    Seqs.FirstIndexLeast(|t|, 0, ok);
    forall k | 0 <= k < |t| && (p == -1 || k < p)
      ensures NumberAt(t, k).None?
    {
      assert !ok(k);
    }
  }

  /** The value of the first number in `t`, if there is one. */
  function NumberIn(t: string): Option<real> {
    var p := FirstNumber(t);
    if p == -1 then None else Some(DecimalValue(NumberAt(t, p).value))
  }

  /** `toNumberOrNull`: the value of the first number in the trimmed text, or nothing for a
      nullish, blank or number-free value. */
  function ToNumberOrNull(s: Option<Json>): Option<real> {
    if IsNullish(s) then None
    else
      var t := Strings.Trim(ValueString(s));
      if t == "" then None else NumberIn(t)
  }

  /** A text that is an optional `-` and then only digits is one match, from its start. */
  lemma NumberAtWhole(t: string, s: nat)
    requires s < |t| && (s == 1 <==> t[0] == '-') && s <= 1
    requires forall k :: s <= k < |t| ==> Strings.IsDigit(t[k])
    ensures NumberAt(t, 0) == Some(Decimal(s == 1, t[s..], ""))
  {
    RunOfAll(t, s, Strings.IsDigit);
    assert t[s..s + RunOf(t, s, Strings.IsDigit)] == t[s..];
  }

  /** A match without a fraction has the value of its digits, with its sign. */
  lemma DecimalWhole(negative: bool, whole: string)
    requires Strings.AllDigits(whole)
    ensures DecimalValue(Decimal(negative, whole, "")) == if negative then -(Strings.DigitsValue(whole) as real)
                                                         else Strings.DigitsValue(whole) as real
  {
    assert Strings.DigitsValue("") == 0 && Shift(0.0, 0) == 0.0;
  }

  /** A text that is an optional `-` and then only digits reads as its signed digits. */
  lemma WholeNumberText(t: string, s: nat, v: nat)
    requires s < |t| && (s == 1 <==> t[0] == '-') && s <= 1
    requires forall k :: s <= k < |t| ==> Strings.IsDigit(t[k])
    requires Strings.AllDigits(t[s..]) && Strings.DigitsValue(t[s..]) == v
    ensures NumberIn(t) == Some(if s == 1 then -(v as real) else v as real)
  {
    NumberAtWhole(t, s);
    var ok := (i: nat) => i <= |t| && NumberAt(t, i).Some?;
    Seqs.FirstIndexLeast(|t|, 0, ok);
    assert ok(0);
    DecimalWhole(s == 1, t[s..]);
  }

  /** A string value with no space around it is read as its own text. */
  lemma StringNumber(t: string)
    requires t != "" && Strings.IsTrimmed(t)
    ensures ToNumberOrNull(Some(JStr(t))) == NumberIn(t)
  {
    Strings.TrimOfTrimmed(t);
    assert ValueString(Some(JStr(t))) == t;
  }

  /** `String(n)` of a natural number reads back as that number. */
  lemma NatRoundTrip(n: nat)
    ensures ToNumberOrNull(Some(JStr(Strings.NatToString(n)))) == Some(n as real)
  {
    var t := Strings.NatToString(n);
    assert Strings.IsDigit(t[0]) && Strings.IsDigit(t[|t| - 1]);
    assert t[0..] == t;
    Strings.NatToStringValue(n);
    WholeNumberText(t, 0, n);
    StringNumber(t);
  }

  /** `String(n)` of an integer reads back as that integer. */
  lemma IntRoundTrip(n: int)
    ensures ToNumberOrNull(Some(JStr(Strings.IntToString(n)))) == Some(n as real)
  {
    if n < 0 {
      NegativeIntRoundTrip(n);
    } else {
      NatRoundTrip(n);
    }
  }

  lemma NegativeIntRoundTrip(n: int)
    requires n < 0
    ensures ToNumberOrNull(Some(JStr(Strings.IntToString(n)))) == Some(n as real)
  {
    Strings.NegativeText(n);
    NegativeRoundTrip(Strings.IntToString(n), n);
  }

  /** A minus sign and then the text of a number's magnitude reads back as that negative number. */
  lemma NegativeRoundTrip(t: string, n: int)
    requires n < 0 && |t| >= 1 && t[0] == '-' && t[1..] == Strings.NatToString(-n)
    ensures ToNumberOrNull(Some(JStr(t))) == Some(n as real)
  {
    var m: nat := -n;
    Strings.DigitsAfterFirst(t);
    Strings.NatToStringValue(m);
    WholeNumberText(t, 1, m);
    assert Strings.IsDigit(t[|t| - 1]);
    StringNumber(t);
    NegatedValue(m, n);
  }

  lemma NegatedValue(m: nat, n: int)
    requires m == -n
    ensures Some(-(m as real)) == Some(n as real)
  {
  }

  // ----- extractMaxPoints -----

  predicate IsOpenParen(c: char) {
    c == '（' || c == '('
  }

  predicate IsCloseParen(c: char) {
    c == '）' || c == ')'
  }

  /** The points of a match of `[（(]\s*(\d+)\s*分\s*[）)]` that starts at `p`, if one does. Each run
      is greedy and borders a character it cannot contain, so this is the only way to match. */
  function PointsAt(t: string, p: nat): Option<nat>
    requires p <= |t|
  {
    if p < |t| && IsOpenParen(t[p]) then
      var a := p + 1 + RunOf(t, p + 1, Strings.IsJsSpace);
      var b := a + RunOf(t, a, Strings.IsDigit);
      var c := b + RunOf(t, b, Strings.IsJsSpace);
      if a < b && c < |t| && t[c] == '分' then
        var e := c + 1 + RunOf(t, c + 1, Strings.IsJsSpace);
        if e < |t| && IsCloseParen(t[e]) then
          RunOfDigits(t, a);
          Some(Strings.DigitsValue(t[a..b]))
        else None
      else None
    else None
  }

  /** Where the first `（N分）` of `t` starts, or -1. */
  function FirstPoints(t: string): (p: int)
    ensures p == -1 || (0 <= p < |t| && PointsAt(t, p).Some?)
  {
    Seqs.FirstIndex(|t|, 0, (i: nat) => i <= |t| && PointsAt(t, i).Some?)
  }

  /** `extractMaxPoints`: N of the first `（N分）` or `(N分)` in `String(name || '')`. */
  function ExtractMaxPoints(name: Option<Json>): Option<nat> {
    var s := StringOrEmpty(name);
    var p := FirstPoints(s);
    if p == -1 then None else PointsAt(s, p)
  }

  /** The maximum is read from the first bracket that matches: none matches before it. */
  lemma FirstPointsLeast(t: string)
    ensures forall k :: 0 <= k < |t| && (FirstPoints(t) == -1 || k < FirstPoints(t)) ==> PointsAt(t, k).None?
  {
    var ok := (i: nat) => i <= |t| && PointsAt(t, i).Some?;
    var p := Seqs.FirstIndex(|t|, 0, ok);
    Seqs.FirstIndexLeast(|t|, 0, ok);
    forall k | 0 <= k < |t| && (p == -1 || k < p)
      ensures PointsAt(t, k).None?
    {
      assert !ok(k);
    }
  }

  /** The text `（N分）` (or with ASCII brackets) matches at its opening bracket and gives N. */
  lemma PointsAtBracket(t: string, p: nat, n: nat)
    requires p + 1 + |Strings.NatToString(n)| + 2 <= |t|
    requires IsOpenParen(t[p]) && IsCloseParen(t[p + 1 + |Strings.NatToString(n)| + 1])
    requires t[p + 1..p + 1 + |Strings.NatToString(n)|] == Strings.NatToString(n)
    requires t[p + 1 + |Strings.NatToString(n)|] == '分'
    ensures PointsAt(t, p) == Some(n)
  {
    var digits := Strings.NatToString(n);
    var a := p + 1;
    var b := a + |digits|;
    DigitsAt(t, a, n);
    RunOfStops(t, a, Strings.IsJsSpace, a);
    RunOfStops(t, a, Strings.IsDigit, b);
    RunOfStops(t, b, Strings.IsJsSpace, b);
    RunOfStops(t, b + 1, Strings.IsJsSpace, b + 1);
    PointsAtRuns(t, p, b, n);
  }

  /** The text of `n` written at `a` is a run of digits worth `n`. */
  lemma DigitsAt(t: string, a: nat, n: nat)
    requires a + |Strings.NatToString(n)| <= |t| && t[a..a + |Strings.NatToString(n)|] == Strings.NatToString(n)
    ensures forall k :: a <= k < a + |Strings.NatToString(n)| ==> Strings.IsDigit(t[k])
    ensures Strings.AllDigits(t[a..a + |Strings.NatToString(n)|])
    ensures Strings.DigitsValue(t[a..a + |Strings.NatToString(n)|]) == n
  {
    var digits := Strings.NatToString(n);
    assert forall k :: a <= k < a + |digits| ==> t[k] == digits[k - a];
    Strings.NatToStringValue(n);
  }

  /** A bracket, digits worth `n` ending at `b`, `分` and the closing bracket, with no spaces
      between them, give `n`. */
  lemma PointsAtRuns(t: string, p: nat, b: nat, n: nat)
    requires p + 1 < b && b + 1 < |t| && IsOpenParen(t[p]) && t[b] == '分' && IsCloseParen(t[b + 1])
    requires RunOf(t, p + 1, Strings.IsJsSpace) == 0 && RunOf(t, p + 1, Strings.IsDigit) == b - (p + 1)
    requires RunOf(t, b, Strings.IsJsSpace) == 0 && RunOf(t, b + 1, Strings.IsJsSpace) == 0
    requires Strings.AllDigits(t[p + 1..b]) && Strings.DigitsValue(t[p + 1..b]) == n
    ensures PointsAt(t, p) == Some(n)
  {
  }

  /** An item title followed by its maximum in brackets of either style gives that maximum back,
      when the title itself opens no bracket. */
  lemma MaxPointsRoundTrip(title: string, open: char, n: nat, close: char)
    requires IsOpenParen(open) && IsCloseParen(close)
    requires forall k :: 0 <= k < |title| ==> !IsOpenParen(title[k])
    ensures ExtractMaxPoints(Some(JStr(title + [open] + Strings.NatToString(n) + "分" + [close])))
            == Some(n)
  {
    var digits := Strings.NatToString(n);
    var t := title + [open] + digits + "分" + [close];
    var p := |title|;
    assert t[p + 1..p + 1 + |digits|] == digits;
    PointsAtBracket(t, p, n);
    assert forall k :: 0 <= k < p ==> t[k] == title[k];
    FirstPointsAt(t, p);
    assert StringOrEmpty(Some(JStr(t))) == t;
  }

  /** A match with no opening bracket before it is the first. */
  lemma FirstPointsAt(t: string, p: nat)
    requires p <= |t| && PointsAt(t, p).Some?
    requires forall k :: 0 <= k < p ==> !IsOpenParen(t[k])
    ensures FirstPoints(t) == p
  {
    var ok := (i: nat) => i <= |t| && PointsAt(t, i).Some?;
    Seqs.FirstIndexLeast(|t|, 0, ok);
    forall k | 0 <= k < p
      ensures !ok(k)
    {
    }
    assert ok(p);
  }

  // ----- summarizeScoreTable -----

  /** One summarised row. */
  datatype Item = Item(name: Json, score: Option<real>, max: Option<nat>, reason: string, advice: string,
                       isTotal: bool)

  /** The header chosen for each of the four columns. */
  datatype Columns = Columns(item: string, score: string, reason: string, advice: string)

  datatype Summary = Summary(totalScore: Option<real>, items: seq<Item>, columns: Columns)

  /** `headers.find(h => h.includes(key))` as an index, or -1. */
  function FirstHeaderWith(headers: seq<string>, key: string): (i: int)
    ensures i == -1 || (0 <= i < |headers| && Strings.Contains(headers[i], key))
  {
    Seqs.FirstIndex(|headers|, 0, (j: nat) => j < |headers| && Strings.Contains(headers[j], key))
  }

  /** `headers.find(h => h.includes(key)) || headers[k] || title`. */
  function Column(headers: seq<string>, key: string, k: nat, title: string): string {
    var i := FirstHeaderWith(headers, key);
    if i != -1 && headers[i] != "" then headers[i]
    else if k < |headers| && headers[k] != "" then headers[k]
    else title
  }

  /** The column is the first header holding the key; when no header holds it, the header at the
      column's position if that is non-empty, else the title. */
  lemma ColumnChoice(headers: seq<string>, key: string, k: nat, title: string)
    requires key != ""
    ensures var c := Column(headers, key, k, title);
            var i := FirstHeaderWith(headers, key);
            (i != -1 ==> c == headers[i] && Strings.Contains(c, key)
                         && forall j :: 0 <= j < i ==> !Strings.Contains(headers[j], key))
            && (i == -1 ==> (forall j :: 0 <= j < |headers| ==> !Strings.Contains(headers[j], key))
                            && c == (if k < |headers| && headers[k] != "" then headers[k] else title))
  {
    var ok := (j: nat) => j < |headers| && Strings.Contains(headers[j], key);
    var i := Seqs.FirstIndex(|headers|, 0, ok);
    Seqs.FirstIndexLeast(|headers|, 0, ok);
    forall j | 0 <= j < |headers| && (i == -1 || j < i)
      ensures !Strings.Contains(headers[j], key)
    {
      assert !ok(j);
    }
    if i != -1 {
      var q :| 0 <= q <= |headers[i]| - |key| && Strings.OccursAt(headers[i], key, q);
      assert headers[i] != "";
    }
  }

  /** `v ?? ''`. */
  function OrEmpty(v: Option<Json>): Json {
    if IsNullish(v) then JStr("") else v.value
  }

  /** `r?.[col] ?? r?._cols?.[k]`. */
  function Cell(r: Json, col: string, k: nat): Option<Json> {
    Coalesce(Prop(Some(r), col), At(Prop(Some(r), "_cols"), k))
  }

  /** The item of one row. */
  function ItemOf(c: Columns, r: Json): Item {
    var name := OrEmpty(Cell(r, c.item, 0));
    Item(name,
         ToNumberOrNull(Cell(r, c.score, 1)),
         ExtractMaxPoints(Some(name)),
         Strings.Trim(JsString(OrEmpty(Cell(r, c.reason, 2)))),
         Strings.Trim(JsString(OrEmpty(Cell(r, c.advice, 3)))),
         Strings.Contains(JsString(name), "总计"))
  }

  /** The items with a truthy name, in row order. */
  function Items(c: Columns, rows: seq<Json>): seq<Item> {
    Seqs.Filter(Seqs.Map(rows, r => ItemOf(c, r)), (x: Item) => Truthy(Some(x.name)))
  }

  /** An item is exactly the item of a row whose name is truthy. */
  lemma ItemsOfRows(c: Columns, rows: seq<Json>)
    ensures forall x :: x in Items(c, rows) <==>
              Truthy(Some(x.name)) && exists r :: r in rows && x == ItemOf(c, r)
  {
    var f := r => ItemOf(c, r);
    var p := (x: Item) => Truthy(Some(x.name));
    Seqs.MapFilterMembers(rows, f, p);
    forall x
      ensures x in Items(c, rows) <==> Truthy(Some(x.name)) && exists r :: r in rows && x == ItemOf(c, r)
    {
      assert p(x) == Truthy(Some(x.name));
      assert (exists r :: r in rows && x == f(r)) <==> (exists r :: r in rows && x == ItemOf(c, r));
    }
  }

  /** `items.find(x => x.isTotal)` as an index, or -1. */
  function TotalIndex(items: seq<Item>): (i: int)
    ensures i == -1 || (0 <= i < |items| && items[i].isTotal)
  {
    Seqs.FirstIndex(|items|, 0, (j: nat) => j < |items| && items[j].isTotal)
  }

  /** The sum of the numeric scores of the items that are not totals. */
  function SumScores(items: seq<Item>): real {
    if items == [] then 0.0
    else
      var x := items[|items| - 1];
      SumScores(items[..|items| - 1]) + (if !x.isTotal && x.score.Some? then x.score.value else 0.0)
  }

  /** `Math.round` for the positive sums it is applied to: halves round up. */
  function Round(x: real): int {
    (x + 0.5).Floor
  }

  lemma RoundBounds(x: real)
    ensures x - 0.5 < Round(x) as real <= x + 0.5
  {
  }

  lemma RoundWhole(n: int)
    ensures Round(n as real) == n
  {
    assert n as real <= n as real + 0.5 < (n + 1) as real;
  }

  /** The total: the score of the total row when it is a number, else the rounded sum when that is
      positive. */
  function ResolvedTotal(items: seq<Item>): Option<real> {
    var i := TotalIndex(items);
    if i != -1 && items[i].score.Some? then items[i].score
    else
      var sum := SumScores(items);
      if sum > 0.0 then Some(Round(sum) as real) else None
  }

  /** `summarizeScoreTable`. */
  function Summarize(table: MarkdownTable.Table): Summary {
    var h := table.headers;
    var c := Columns(Column(h, "项目", 0, "项目"), Column(h, "得分", 1, "得分"),
                     Column(h, "扣分", 2, "扣分原因"), Column(h, "建议", 3, "改进建议"));
    var items := Items(c, table.rows);
    Summary(ResolvedTotal(items), items, c)
  }

  /** The total is the score of the first item named as a total, when that score is a number. */
  lemma TotalFromTotalRow(items: seq<Item>, i: nat)
    requires i < |items| && items[i].isTotal && items[i].score.Some?
    requires forall j :: 0 <= j < i ==> !items[j].isTotal
    ensures ResolvedTotal(items) == items[i].score
  {
    var ok := (j: nat) => j < |items| && items[j].isTotal;
    Seqs.FirstIndexLeast(|items|, 0, ok);
    assert ok(i);
    assert forall j :: 0 <= j < i ==> !ok(j);
  }

  /** Without a total item, the total is the sum of the item scores rounded to the nearest whole
      number when that sum is positive, and nothing otherwise; whole scores give their exact sum. */
  lemma TotalFromSum(items: seq<Item>)
    requires forall j :: 0 <= j < |items| ==> !items[j].isTotal
    ensures var sum := SumScores(items);
            (sum > 0.0 ==> ResolvedTotal(items).Some?
                           && sum - 0.5 < ResolvedTotal(items).value <= sum + 0.5)
            && (sum <= 0.0 ==> ResolvedTotal(items) == None)
            && (sum > 0.0 && sum == sum.Floor as real ==> ResolvedTotal(items) == Some(sum))
  {
    var ok := (j: nat) => j < |items| && items[j].isTotal;
    Seqs.FirstIndexLeast(|items|, 0, ok);
    assert forall j :: 0 <= j < |items| ==> !ok(j);
    var sum := SumScores(items);
    RoundBounds(sum);
    RoundWhole(sum.Floor);
  }

  /** Only `总计` marks a total: an item named `总分` is an ordinary item. */
  lemma TotalMarker()
    ensures !Strings.Contains("总分", "总计")
    ensures Strings.Contains("总计", "总计")
  {
    assert Strings.OccursAt("总计", "总计", 0);
    assert "总分"[1] != "总计"[1];
    assert !Strings.OccursAt("总分", "总计", 0);
  }
}
