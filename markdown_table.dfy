/** The report reader of the score relay: it finds the first pipe table in the assistant's
    Markdown (a minimal subset of the tables of GitHub Flavored Markdown, section 4.10: a header
    row, a separator row of at least three dashes per cell, then body rows; escaped pipes are not
    handled), and turns its rows into objects keyed by the header cells. */
module MarkdownTable {
  import opened Wrappers
  import opened Json
  import Strings
  import Seqs

  // ----- one row -----

  /** One leading and one trailing `|` removed. */
  function StripPipes(t: string): string {
    var s := if |t| > 0 && t[0] == '|' then t[1..] else t;
    if |s| > 0 && s[|s| - 1] == '|' then s[..|s| - 1] else s
  }

  /** `stripOuterPipes`: the trimmed line without its outer pipes. */
  function StripOuterPipes(line: string): string {
    StripPipes(Strings.Trim(line))
  }

  /** Each cell trimmed. */
  function TrimAll(cells: seq<string>): (r: seq<string>)
    ensures |r| == |cells|
  {
    if cells == [] then [] else [Strings.Trim(cells[0])] + TrimAll(cells[1..])
  }

  lemma {:induction false} TrimAllAt(cells: seq<string>, k: nat)
    requires k < |cells|
    ensures TrimAll(cells)[k] == Strings.Trim(cells[k])
  {
    if k > 0 {
      TrimAllAt(cells[1..], k - 1);
    }
  }

  /** `splitRow`: the cells between the pipes, trimmed. */
  function SplitRow(line: string): (cells: seq<string>)
    ensures |cells| >= 1
  {
    TrimAll(Strings.Split(StripOuterPipes(line), '|'))
  }

  /** One separator cell, already trimmed: the pattern `^:?-{3,}:?$`. */
  predicate IsSeparatorCell(c: string) {
    var a := if |c| > 0 && c[0] == ':' then 1 else 0;
    var b := if |c| > a && c[|c| - 1] == ':' then 1 else 0;
    |c| - a - b >= 3 && AllDashes(c[a..|c| - b])
  }

  predicate AllDashes(s: string) {
    s == [] || (s[0] == '-' && AllDashes(s[1..]))
  }

  lemma {:induction false} AllDashesIff(s: string)
    ensures AllDashes(s) <==> s == Dashes(|s|)
  {
    if s != [] {
      AllDashesIff(s[1..]);
      if s[0] == '-' && s[1..] == Dashes(|s| - 1) {
        assert s == [s[0]] + s[1..];
      }
      if s == Dashes(|s|) {
        assert s[1..] == Dashes(|s| - 1);
      }
    }
  }

  /** Every cell is a separator cell. */
  predicate AllSeparatorCells(cells: seq<string>) {
    cells == [] || (IsSeparatorCell(cells[0]) && AllSeparatorCells(cells[1..]))
  }

  /** `isSeparatorRow`: a non-empty core whose every `|`-segment, trimmed, is a separator cell;
      the trimmed segments are the row's cells. */
  predicate IsSeparatorRow(line: string) {
    StripOuterPipes(line) != "" && AllSeparatorCells(SplitRow(line))
  }

  function Dashes(n: nat): (r: string)
    ensures |r| == n && forall k :: 0 <= k < n ==> r[k] == '-'
  {
    seq(n, _ => '-')
  }

  /** A separator cell in one of its four forms: `---`, `:---`, `---:` or `:---:`. */
  predicate SeparatorForm(c: string, n: nat) {
    c == Dashes(n) || c == ":" + Dashes(n) || c == Dashes(n) + ":" || c == ":" + Dashes(n) + ":"
  }

  lemma SeparatorCellHasForm(c: string)
    requires IsSeparatorCell(c)
    ensures SeparatorForm(c, |c| - (if c[0] == ':' then 1 else 0) - (if c[|c| - 1] == ':' then 1 else 0))
  {
    var a := if |c| > 0 && c[0] == ':' then 1 else 0;
    var b := if |c| > a && c[|c| - 1] == ':' then 1 else 0;
    var n := |c| - a - b;
    AllDashesIff(c[a..|c| - b]);
    if a == 0 && b == 0 {
      assert c == Dashes(n);
    } else if a == 1 && b == 0 {
      assert c == ":" + Dashes(n);
    } else if a == 0 && b == 1 {
      assert c == Dashes(n) + ":";
    } else {
      assert c == ":" + Dashes(n) + ":";
    }
  }

  lemma FormIsSeparatorCell(c: string, n: nat)
    requires n >= 3 && SeparatorForm(c, n)
    ensures IsSeparatorCell(c)
  {
    var d := Dashes(n);
    AllDashesIff(d);
    if c == d {
      assert c[0] == '-' && c[|c| - 1] == '-';
      assert c[0..|c|] == d;
    } else if c == ":" + d {
      assert c[0] == ':' && c[|c| - 1] == '-';
      assert c[1..|c|] == d;
    } else if c == d + ":" {
      assert c[0] == '-' && c[|c| - 1] == ':';
      assert c[0..|c| - 1] == d;
    } else {
      assert c[0] == ':' && c[|c| - 1] == ':';
      assert c[1..|c| - 1] == d;
    }
  }

  /** The separator cells are exactly the runs of three or more dashes, with an optional colon on
      either side. */
  lemma SeparatorCellForms(c: string)
    ensures IsSeparatorCell(c) <==> exists n :: n >= 3 && SeparatorForm(c, n)
  {
    if IsSeparatorCell(c) {
      SeparatorCellHasForm(c);
    }
    if exists n :: n >= 3 && SeparatorForm(c, n) {
      var n :| n >= 3 && SeparatorForm(c, n);
      FormIsSeparatorCell(c, n);
    }
  }

  // ----- writing a row and reading it back -----

  /** A cell as a table writer puts it between pipes: one space on either side. */
  function Pad(c: string): string {
    " " + c + " "
  }

  /** `| c1 | c2 | … |`. */
  function RenderRow(cells: seq<string>): (line: string)
    requires |cells| >= 1
  {
    "|" + Strings.Join(PadAll(cells), '|') + "|"
  }

  /** A cell a row can hold: trimmed and without a pipe. */
  predicate IsCellText(c: string) {
    Strings.IsTrimmed(c) && '|' !in c
  }

  lemma TrimPad(c: string)
    requires Strings.IsTrimmed(c)
    ensures Strings.Trim(Pad(c)) == c
  {
    var p := Pad(c);
    var u := Strings.TrimStartWith(p, Strings.IsJsSpace);
    if c == "" {
      assert Strings.AllWith(p, Strings.IsJsSpace);
      Strings.TrimEmptyIff(p, Strings.IsJsSpace);
    } else {
      var q := c + " ";
      assert p[1..] == q && Strings.IsJsSpace(p[0]);
      assert u == Strings.TrimStartWith(q, Strings.IsJsSpace);
      assert q[0] == c[0];
      assert u == q;
      assert q[..|q| - 1] == c && Strings.IsJsSpace(q[|q| - 1]);
      assert Strings.TrimEndWith(q, Strings.IsJsSpace) == Strings.TrimEndWith(c, Strings.IsJsSpace);
      assert Strings.TrimEndWith(c, Strings.IsJsSpace) == c;
    }
  }

  lemma {:induction false} SplitJoin(parts: seq<string>, sep: char)
    requires |parts| >= 1
    requires forall k :: 0 <= k < |parts| ==> sep !in parts[k]
    ensures Strings.Split(Strings.Join(parts, sep), sep) == parts
  {
    if |parts| == 1 {
      Strings.SplitNoSep(parts[0], sep);
    } else {
      SplitJoin(parts[1..], sep);
      Strings.SplitNoSep(parts[0], sep);
      Strings.SplitAround(parts[0], sep, Strings.Join(parts[1..], sep));
      assert parts == [parts[0]] + parts[1..];
    }
  }

  lemma BetweenPipesTrimmed(inner: string)
    ensures Strings.IsTrimmed("|" + inner + "|")
  {
    var line := "|" + inner + "|";
    assert line[0] == '|' && line[|line| - 1] == '|';
  }

  lemma StripPipesBetween(inner: string)
    ensures StripPipes("|" + inner + "|") == inner
  {
  }

  /** The outer pipes of a line written between two pipes are stripped. */
  lemma StripBetweenPipes(inner: string)
    ensures StripOuterPipes("|" + inner + "|") == inner
  {
    BetweenPipesTrimmed(inner);
    Strings.TrimOfTrimmed("|" + inner + "|");
    StripPipesBetween(inner);
  }

  function PadAll(cells: seq<string>): (r: seq<string>)
    ensures |r| == |cells| && forall k :: 0 <= k < |r| ==> r[k] == Pad(cells[k])
  {
    seq(|cells|, k requires 0 <= k < |cells| => Pad(cells[k]))
  }

  /** Trimming the padded cells gives the cells back. */
  lemma TrimPadAll(cells: seq<string>)
    requires forall k :: 0 <= k < |cells| ==> Strings.IsTrimmed(cells[k])
    ensures TrimAll(PadAll(cells)) == cells
  {
    var padded := PadAll(cells);
    forall k | 0 <= k < |cells|
      ensures TrimAll(padded)[k] == cells[k]
    {
      TrimAllAt(padded, k);
      TrimPad(cells[k]);
    }
  }

  /** Reading a written row gives back its cells. */
  lemma RowRoundTrip(cells: seq<string>)
    requires |cells| >= 1 && forall k :: 0 <= k < |cells| ==> IsCellText(cells[k])
    ensures SplitRow(RenderRow(cells)) == cells
  {
    var padded := PadAll(cells);
    var inner := Strings.Join(padded, '|');
    assert RenderRow(cells) == "|" + inner + "|";
    StripBetweenPipes(inner);
    forall k | 0 <= k < |padded|
      ensures '|' !in padded[k]
    {
      PadKeepsNoPipe(cells[k]);
    }
    SplitJoin(padded, '|');
    assert Strings.Split(StripOuterPipes(RenderRow(cells)), '|') == padded;
    TrimPadAll(cells);
  }

  lemma PadKeepsNoPipe(c: string)
    requires '|' !in c
    ensures '|' !in Pad(c)
  {
    forall k | 0 <= k < |Pad(c)|
      ensures Pad(c)[k] != '|'
    {
      if 0 < k < |c| + 1 {
        assert Pad(c)[k] == c[k - 1];
      }
    }
  }

  // ----- finding the table -----

  /** `lines` is the text split on `\r?\n`, each line trimmed, blank lines dropped. Splitting on
      `\n` alone gives the same lines, since trimming removes the carriage return. */
  function Lines(markdown: string): seq<string> {
    Seqs.Filter(TrimAll(Strings.Split(markdown, '\n')), (l: string) => l != "")
  }

  /** Every line is non-empty and trimmed. */
  lemma LinesTrimmed(markdown: string)
    ensures forall i :: 0 <= i < |Lines(markdown)| ==> Lines(markdown)[i] != "" && Strings.IsTrimmed(Lines(markdown)[i])
  {
    var parts := Strings.Split(markdown, '\n');
    var trimmed := TrimAll(parts);
    forall k | 0 <= k < |trimmed|
      ensures Strings.IsTrimmed(trimmed[k])
    {
      TrimAllAt(parts, k);
      Strings.TrimIsTrimmed(parts[k]);
    }
    Seqs.FilterPreserves(trimmed, (l: string) => l != "", Strings.IsTrimmed);
  }

  /** `line.includes('|')`. */
  predicate HasPipe(line: string) {
    line != [] && (line[0] == '|' || HasPipe(line[1..]))
  }

  lemma {:induction false} HasPipeIff(line: string)
    ensures HasPipe(line) <==> '|' in line
  {
    if line != [] {
      HasPipeIff(line[1..]);
      assert line == [line[0]] + line[1..];
    }
  }

  /** A table starts at line `i`: it holds a pipe and the next line is a separator row. */
  predicate TableAt(lines: seq<string>, i: int) {
    0 <= i < |lines| - 1 && HasPipe(lines[i]) && IsSeparatorRow(lines[i + 1])
  }

  /** The first table's header line, or -1. */
  function FirstTable(lines: seq<string>, from: nat): (i: int)
    ensures i == -1 || (from <= i && TableAt(lines, i))
    ensures forall k :: from <= k && (i == -1 || k < i) ==> !TableAt(lines, k)
    decreases |lines| - from
  {
    if from >= |lines| - 1 then -1
    else if TableAt(lines, from) then from
    else FirstTable(lines, from + 1)
  }

  /** The test in `findFirstTableAt`'s loop: the line holds a pipe and the next one is a
      separator row. */
  method IsTableStart(lines: seq<string>, i: nat) returns (b: bool)
    requires i < |lines| - 1
    ensures b == TableAt(lines, i)
  {
    var headerLine := lines[i];
    var sepLine := lines[i + 1];
    if !HasPipe(headerLine) {
      return false;
    }
    if !IsSeparatorRow(sepLine) {
      return false;
    }
    return true;
  }

  /** `findFirstTableAt`. */
  method FindFirstTableAt(lines: seq<string>) returns (i: int)
    ensures i == FirstTable(lines, 0)
  {
    i := 0;
    while i < |lines| - 1
      invariant 0 <= i
      invariant FirstTable(lines, i) == FirstTable(lines, 0)
    {
      var found := IsTableStart(lines, i);
      if found {
        return;
      }
      i := i + 1;
    }
    i := -1;
  }

  // ----- the table -----

  /** The parsed table: the non-empty header cells and one object per body row. */
  datatype Table = Table(headers: seq<string>, rows: seq<Json>)

  /** The cell under header `k`, or `''` when the row is shorter. */
  function CellAt(cols: seq<string>, k: nat): string {
    if k < |cols| then cols[k] else ""
  }

  /** `obj[headers[k]] = cols[k] ?? ''` for the first `|headers|` headers, in order. */
  function HeaderFields(headers: seq<string>, cols: seq<string>): map<string, Json> {
    if headers == [] then map[]
    else HeaderFields(headers[..|headers| - 1], cols)[headers[|headers| - 1] := JStr(CellAt(cols, |headers| - 1))]
  }

  function Strs(cols: seq<string>): seq<Json> {
    seq(|cols|, k requires 0 <= k < |cols| => JStr(cols[k]))
  }

  /** The object of one body row, with `_cols` holding all its cells. */
  function MakeRow(headers: seq<string>, cols: seq<string>): Json {
    JObj(HeaderFields(headers, cols)["_cols" := JArr(Strs(cols))])
  }

  /** Every header is a key; under it is the cell of its last occurrence. */
  lemma {:induction false} HeaderFieldsCells(headers: seq<string>, cols: seq<string>, k: nat)
    requires k < |headers| && forall k' :: k < k' < |headers| ==> headers[k'] != headers[k]
    ensures headers[k] in HeaderFields(headers, cols)
    ensures HeaderFields(headers, cols)[headers[k]] == JStr(CellAt(cols, k))
    decreases |headers|
  {
    var n := |headers|;
    if k < n - 1 {
      HeaderFieldsCells(headers[..n - 1], cols, k);
    }
  }

  lemma {:induction false} HeaderFieldsKeys(headers: seq<string>, cols: seq<string>)
    ensures forall h :: h in HeaderFields(headers, cols) <==> h in headers
    decreases |headers|
  {
    if headers != [] {
      var n := |headers|;
      HeaderFieldsKeys(headers[..n - 1], cols);
      assert headers == headers[..n - 1] + [headers[n - 1]];
    }
  }

  /** `cols.every(c => !c)`. */
  predicate AllBlank(cols: seq<string>) {
    cols == [] || (cols[0] == "" && AllBlank(cols[1..]))
  }

  /** A body row is kept unless it is a separator or all its cells are blank. */
  predicate KeepRow(line: string) {
    !IsSeparatorRow(line) && !AllBlank(SplitRow(line))
  }

  /** The row object of a body line, or nothing for a skipped line. */
  function RowOf(headers: seq<string>, line: string): Option<Json> {
    if KeepRow(line) then Some(MakeRow(headers, SplitRow(line))) else None
  }

  /** The rows built from the body lines, in order. */
  function BodyRows(headers: seq<string>, body: seq<string>): seq<Json> {
    if body == [] then []
    else
      var r := RowOf(headers, body[|body| - 1]);
      BodyRows(headers, body[..|body| - 1]) + (if r.Some? then [r.value] else [])
  }

  lemma BodyRowsStep(headers: seq<string>, lines: seq<string>, from: nat, j: nat, row: Option<Json>)
    requires from <= j < |lines| && row == RowOf(headers, lines[j])
    ensures BodyRows(headers, lines[from..j + 1])
         == BodyRows(headers, lines[from..j]) + (if row.Some? then [row.value] else [])
  {
    SliceLast(lines, from, j);
    BodyRowsLast(headers, lines[from..j + 1]);
  }

  lemma SliceLast(lines: seq<string>, from: nat, j: nat)
    requires from <= j < |lines|
    ensures var b := lines[from..j + 1]; |b| == j + 1 - from && b[..|b| - 1] == lines[from..j] && b[|b| - 1] == lines[j]
  {
  }

  lemma BodyRowsLast(headers: seq<string>, body: seq<string>)
    requires body != []
    ensures var r := RowOf(headers, body[|body| - 1]);
            BodyRows(headers, body) == BodyRows(headers, body[..|body| - 1]) + (if r.Some? then [r.value] else [])
  {
  }

  /** At most one row per line, and each row is made from one of the lines. */
  lemma {:induction false} BodyRowsBound(headers: seq<string>, body: seq<string>)
    ensures |BodyRows(headers, body)| <= |body|
    ensures forall r :: r in BodyRows(headers, body) ==>
              exists i :: 0 <= i < |body| && RowOf(headers, body[i]) == Some(r)
    decreases |body|
  {
    if body != [] {
      var n := |body|;
      var init := body[..n - 1];
      BodyRowsBound(headers, init);
      forall r | r in BodyRows(headers, body)
        ensures exists i :: 0 <= i < |body| && RowOf(headers, body[i]) == Some(r)
      {
        if r in BodyRows(headers, init) {
          var i :| 0 <= i < |init| && RowOf(headers, init[i]) == Some(r);
          assert init[i] == body[i];
        } else {
          assert RowOf(headers, body[n - 1]) == Some(r);
        }
      }
    }
  }

  /** Where the body ends: the first line from `from` on without a pipe, or the end. */
  function BodyEnd(lines: seq<string>, from: nat): (e: nat)
    requires from <= |lines|
    ensures from <= e <= |lines|
    ensures forall k :: from <= k < e ==> HasPipe(lines[k])
    ensures e < |lines| ==> !HasPipe(lines[e])
    decreases |lines| - from
  {
    if from == |lines| || !HasPipe(lines[from]) then from else BodyEnd(lines, from + 1)
  }

  /** `splitRow(header).filter(Boolean)`. */
  function Headers(line: string): (headers: seq<string>)
    ensures forall i :: 0 <= i < |headers| ==> headers[i] != ""
  {
    Seqs.Filter(SplitRow(line), (c: string) => c != "")
  }

  /** The table the lines hold: the first one, or an empty table. */
  function TableOf(lines: seq<string>): Table {
    var start := FirstTable(lines, 0);
    if start == -1 then Table([], [])
    else
      var headers := Headers(lines[start]);
      Table(headers, BodyRows(headers, lines[start + 2..BodyEnd(lines, start + 2)]))
  }

  lemma NoTableEmpty(lines: seq<string>)
    requires FirstTable(lines, 0) == -1
    ensures TableOf(lines) == Table([], [])
  {
  }

  /** What `parseMarkdownPipeTable` returns for a Markdown text. */
  function ParseTable(markdown: string): Table {
    TableOf(Lines(markdown))
  }

  /** The inner loop: `obj[headers[k]] = cols[k] ?? ''`, then `obj._cols = cols`. */
  method BuildRow(headers: seq<string>, cols: seq<string>) returns (row: Json)
    ensures row == MakeRow(headers, cols)
  {
    var obj: map<string, Json> := map[];
    var k := 0;
    while k < |headers|
      invariant 0 <= k <= |headers|
      invariant obj == HeaderFields(headers[..k], cols)
    {
      assert headers[..k + 1][..k] == headers[..k];
      obj := obj[headers[k] := JStr(if k < |cols| then cols[k] else "")];
      k := k + 1;
    }
    assert headers[..k] == headers;
    row := JObj(obj["_cols" := JArr(Strs(cols))]);
  }

  /** One body line: skipped when it is a separator row or all its cells are blank, otherwise
      turned into its row object. */
  method ReadBodyLine(headers: seq<string>, line: string) returns (row: Option<Json>)
    ensures row == RowOf(headers, line)
  {
    if IsSeparatorRow(line) {
      return None;
    }
    var cols := SplitRow(line);
    if AllBlank(cols) {
      return None;
    }
    var obj := BuildRow(headers, cols);
    return Some(obj);
  }

  /** The body loop: reads lines from `from` while they hold a pipe. */
  method ReadBody(headers: seq<string>, lines: seq<string>, from: nat) returns (rows: seq<Json>, end: nat)
    requires from <= |lines|
    ensures end == BodyEnd(lines, from)
    ensures rows == BodyRows(headers, lines[from..end])
  {
    rows := [];
    end := from;
    BodyRowsNone(headers, lines, from);
    while end < |lines| && HasPipe(lines[end])
      invariant from <= end <= |lines|
      invariant BodyEnd(lines, from) == BodyEnd(lines, end)
      invariant rows == BodyRows(headers, lines[from..end])
    {
      var row := ReadBodyLine(headers, lines[end]);
      BodyRowsStep(headers, lines, from, end, row);
      rows := rows + if row.Some? then [row.value] else [];
      end := end + 1;
    }
  }

  lemma BodyRowsNone(headers: seq<string>, lines: seq<string>, from: nat)
    requires from <= |lines|
    ensures BodyRows(headers, lines[from..from]) == []
  {
    assert lines[from..from] == [];
  }

  /** The table whose header line is at `start`: its header cells, then its body rows. */
  method ReadTable(lines: seq<string>, start: int) returns (t: Table)
    requires start == FirstTable(lines, 0) && start != -1
    ensures t == TableOf(lines)
  {
    var headers := Headers(lines[start]);
    var rows, _ := ReadBody(headers, lines, start + 2);
    t := Table(headers, rows);
  }

  /** `parseMarkdownPipeTable`. */
  method ParseMarkdownPipeTable(markdown: string) returns (t: Table)
    ensures t == ParseTable(markdown)
  {
    var lines := Lines(markdown);
    var start := FindFirstTableAt(lines);
    if start == -1 {
      NoTableEmpty(lines);
      return Table([], []);
    }
    t := ReadTable(lines, start);
  }

  /** No cell of a row holds a pipe. */
  lemma CellsHaveNoPipe(line: string, k: nat)
    requires k < |SplitRow(line)|
    ensures '|' !in SplitRow(line)[k]
  {
    var parts := Strings.Split(StripOuterPipes(line), '|');
    TrimAllAt(parts, k);
    SplitHasNoSep(StripOuterPipes(line), '|', k);
    TrimHasNoChar(parts[k], '|');
  }

  /** The header cells are non-empty and hold no pipe. */
  lemma HeadersHaveNoPipe(line: string)
    ensures forall i :: 0 <= i < |Headers(line)| ==> Headers(line)[i] != "" && '|' !in Headers(line)[i]
  {
    var cells := SplitRow(line);
    forall k | 0 <= k < |cells|
      ensures '|' !in cells[k]
    {
      CellsHaveNoPipe(line, k);
    }
    Seqs.FilterPreserves(cells, (c: string) => c != "", (c: string) => '|' !in c);
  }

  /** Without a line holding a pipe followed by a separator row, there is no table. */
  lemma NoTableAnywhere(lines: seq<string>)
    requires forall i :: !TableAt(lines, i)
    ensures TableOf(lines) == Table([], [])
  {
    NoTableEmpty(lines);
  }

  /** The header cells of the table are non-empty and hold no pipe. */
  lemma TableHeaders(lines: seq<string>)
    ensures var h := TableOf(lines).headers;
            forall i :: 0 <= i < |h| ==> h[i] != "" && '|' !in h[i]
  {
    var start := FirstTable(lines, 0);
    if start != -1 {
      HeadersHaveNoPipe(lines[start]);
    }
  }

  /** `r` is the object some kept line of `lines` makes under `headers`. */
  predicate RowOfKeptLine(r: Json, headers: seq<string>, lines: seq<string>) {
    exists k :: 0 <= k < |lines| && KeepRow(lines[k]) && r == MakeRow(headers, SplitRow(lines[k]))
  }

  /** Each row of a body slice is the object of one kept line of the text. */
  lemma BodyRowsOfKeptLines(headers: seq<string>, lines: seq<string>, a: nat, b: nat)
    requires a <= b <= |lines|
    ensures |BodyRows(headers, lines[a..b])| <= |lines|
    ensures forall r :: r in BodyRows(headers, lines[a..b]) ==> RowOfKeptLine(r, headers, lines)
  {
    var body := lines[a..b];
    BodyRowsBound(headers, body);
    forall r | r in BodyRows(headers, body)
      ensures RowOfKeptLine(r, headers, lines)
    {
      var i :| 0 <= i < |body| && RowOf(headers, body[i]) == Some(r);
      assert lines[a + i] == body[i];
      RowOfSome(headers, body[i], r);
      assert 0 <= a + i < |lines| && KeepRow(lines[a + i]) && r == MakeRow(headers, SplitRow(lines[a + i]));
    }
  }

  lemma RowOfSome(headers: seq<string>, l: string, r: Json)
    requires RowOf(headers, l) == Some(r)
    ensures KeepRow(l) && r == MakeRow(headers, SplitRow(l))
  {
  }

  /** Each row is the object of a kept line of the text, keyed by the table's header cells. */
  lemma TableRows(lines: seq<string>)
    ensures var t := TableOf(lines);
            forall r :: r in t.rows ==> RowOfKeptLine(r, t.headers, lines)
  {
    var start := FirstTable(lines, 0);
    if start != -1 {
      var headers := Headers(lines[start]);
      var end := BodyEnd(lines, start + 2);
      assert TableOf(lines) == Table(headers, BodyRows(headers, lines[start + 2..end]));
      BodyRowsOfKeptLines(headers, lines, start + 2, end);
    }
  }

  /** At most one row per line. */
  lemma TableRowCount(lines: seq<string>)
    ensures |TableOf(lines).rows| <= |lines|
  {
    var start := FirstTable(lines, 0);
    if start != -1 {
      BodyRowsOfKeptLines(Headers(lines[start]), lines, start + 2, BodyEnd(lines, start + 2));
    }
  }

  lemma {:induction false} SplitHasNoSep(s: string, sep: char, k: nat)
    requires k < |Strings.Split(s, sep)|
    ensures sep !in Strings.Split(s, sep)[k]
    decreases |s|
  {
    if s != [] {
      var rest := Strings.Split(s[1..], sep);
      if s[0] == sep {
        if k > 0 {
          SplitHasNoSep(s[1..], sep, k - 1);
        }
      } else if k == 0 {
        SplitHasNoSep(s[1..], sep, 0);
      } else {
        SplitHasNoSep(s[1..], sep, k);
      }
    }
  }

  lemma TrimHasNoChar(s: string, c: char)
    requires c !in s
    ensures c !in Strings.Trim(s)
  {
    var u := Strings.TrimStartWith(s, Strings.IsJsSpace);
    var r := Strings.TrimEndWith(u, Strings.IsJsSpace);
    assert forall k :: 0 <= k < |r| ==> r[k] == s[|s| - |u| + k];
  }
}
