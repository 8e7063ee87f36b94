/** Event-stream framing shared by the two relays and the browser client: the read buffer is cut
    at its last blank line ("\n\n"), the part before it is split into blocks and lines, and every
    `data:` line with a non-empty trimmed payload yields one event. This is the `data:`-only subset
    of the server-sent events format of the HTML Living Standard, section 9.2. */
module Framing {
  import opened Wrappers
  import opened Json
  import Strings

  /** The `{ type: 'done' }` event the `[DONE]` sentinel line becomes. */
  function DoneEvent(): Json {
    Obj1("type", JStr("done"))
  }

  /** `{ type: 'delta', delta: data }`: what the browser client makes of a payload that is not JSON. */
  function RawDelta(data: string): Json {
    JObj(map["type" := JStr("delta"), "delta" := JStr(data)])
  }

  /** What happens to a payload that `JSON.parse` rejects: the relays drop it,
      the browser client keeps it as a delta. */
  datatype Fallback = Drop | KeepAsDelta

  /** The trimmed payload of a line that starts with `data:`. */
  function DataPayload(line: string): Option<string> {
    if Strings.StartsWith(line, "data:") then Some(Strings.Trim(line[5..])) else None
  }

  /** The events one line contributes: none, or one. */
  function LineEvents(parse: string -> Option<Json>, fb: Fallback, line: string): seq<Json> {
    match DataPayload(line)
    case None => []
    case Some(data) =>
      if data == "" then []
      else if data == "[DONE]" then [DoneEvent()]
      else if parse(data).Some? then [parse(data).value]
      else if fb == KeepAsDelta then [RawDelta(data)]
      else []
  }

  /** `LineEvents` as a function value: the per-line reading the relays (`Drop`) and the browser
      client (`KeepAsDelta`) apply. */
  function LineFn(parse: string -> Option<Json>, fb: Fallback): string -> seq<Json> {
    line => LineEvents(parse, fb, line)
  }

  /** A line that is not a `data:` line, or whose payload is blank, yields nothing; in particular
      the empty line that separates two blocks. */
  lemma LineFnSilentOnBlank(parse: string -> Option<Json>, fb: Fallback)
    ensures LineFn(parse, fb)("") == []
  {
  }

  /** `f` applied to each element, the results concatenated in order. */
  function FlatMap<T>(f: T -> seq<Json>, xs: seq<T>): seq<Json> {
    if xs == [] then [] else FlatMap(f, xs[..|xs| - 1]) + f(xs[|xs| - 1])
  }

  lemma {:induction false} FlatMapAppend<T>(f: T -> seq<Json>, xs: seq<T>, ys: seq<T>)
    ensures FlatMap(f, xs + ys) == FlatMap(f, xs) + FlatMap(f, ys)
    decreases |ys|
  {
    if ys == [] {
      assert xs + ys == xs;
    } else {
      var ys' := ys[..|ys| - 1];
      assert (xs + ys)[..|xs + ys| - 1] == xs + ys';
      FlatMapAppend(f, xs, ys');
    }
  }

  /** One more element: the step a loop over `xs` takes. */
  lemma FlatMapStep<T>(f: T -> seq<Json>, xs: seq<T>, i: int)
    requires 0 <= i < |xs|
    ensures FlatMap(f, xs[..i + 1]) == FlatMap(f, xs[..i]) + f(xs[i])
  {
    assert xs[..i + 1][..i] == xs[..i];
  }

  lemma FlatMapOne<T>(f: T -> seq<Json>, x: T)
    ensures FlatMap(f, [x]) == f(x)
  {
    assert [x][..0] == [];
  }

  lemma FlatMapCons<T>(f: T -> seq<Json>, x: T, xs: seq<T>)
    ensures FlatMap(f, [x] + xs) == f(x) + FlatMap(f, xs)
  {
    FlatMapAppend(f, [x], xs);
    FlatMapOne(f, x);
  }

  /** The events of a text under the per-line reading `f`: those of its lines, in line order. */
  function Events(f: string -> seq<Json>, text: string): seq<Json> {
    FlatMap(f, Strings.Split(text, '\n'))
  }

  /** `Events` as a function value. */
  function EventsFn(f: string -> seq<Json>): string -> seq<Json> {
    text => Events(f, text)
  }

  /** `text.split('\n\n')`: cut at each double line feed, scanning left to right. */
  function SplitBlocks(text: string): (blocks: seq<string>)
    ensures |blocks| >= 1
    decreases |text|
  {
    if text == [] then [[]]
    else if |text| >= 2 && text[0] == '\n' && text[1] == '\n' then [[]] + SplitBlocks(text[2..])
    else
      var rest := SplitBlocks(text[1..]);
      [[text[0]] + rest[0]] + rest[1..]
  }

  /** Blocks glued back with "\n\n". */
  function JoinBlocks(blocks: seq<string>): string
    requires |blocks| >= 1
  {
    if |blocks| == 1 then blocks[0] else blocks[0] + "\n\n" + JoinBlocks(blocks[1..])
  }

  /** `parseUpstreamSseEvents` (fallback `Drop`) and the client's `parseSse` (fallback
      `KeepAsDelta`): blocks, then lines, then one event per usable `data:` line. Its result is
      the line-level definition `Events`, whatever the block structure. */
  method ParseDataLines(parse: string -> Option<Json>, fb: Fallback, chunkText: string)
    returns (events: seq<Json>)
    ensures events == Events(LineFn(parse, fb), chunkText)
  {
    ghost var f := LineFn(parse, fb);
    events := [];
    var chunks := SplitBlocks(chunkText);
    for bi := 0 to |chunks|
      invariant events == FlatMap(EventsFn(f), chunks[..bi])
    {
      var blockEvents := ParseBlock(parse, fb, chunks[bi]);
      events := events + blockEvents;
      FlatMapStep(EventsFn(f), chunks, bi);
    }
    assert chunks[..|chunks|] == chunks;
    LineFnSilentOnBlank(parse, fb);
    BlocksEventsAreEvents(f, chunkText);
  }

  /** The inner loop of `ParseDataLines`: the lines of one block, in order. */
  method ParseBlock(parse: string -> Option<Json>, fb: Fallback, block: string)
    returns (events: seq<Json>)
    ensures events == Events(LineFn(parse, fb), block)
  {
    ghost var f := LineFn(parse, fb);
    events := [];
    var lines := Strings.Split(block, '\n');
    for li := 0 to |lines|
      invariant events == FlatMap(f, lines[..li])
    {
      var line := lines[li];
      var found: seq<Json> := [];
      if Strings.StartsWith(line, "data:") {
        var data := Strings.Trim(line[5..]);
        if data != "" {
          if data == "[DONE]" {
            found := [DoneEvent()];
          } else {
            var parsed := parse(data);
            if parsed.Some? {
              found := [parsed.value];
            } else if fb == KeepAsDelta {
              found := [RawDelta(data)];
            }
          }
        }
      }
      assert found == LineEvents(parse, fb, line) == f(line);
      FlatMapStep(f, lines, li);
      events := events + found;
    }
    assert lines[..|lines|] == lines;
  }

  /** Text separated by one line feed: its events are those of the two sides. */
  lemma EventsAroundNewline(f: string -> seq<Json>, x: string, y: string)
    ensures Events(f, x + "\n" + y) == Events(f, x) + Events(f, y)
  {
    Strings.SplitAround(x, '\n', y);
    FlatMapAppend(f, Strings.Split(x, '\n'), Strings.Split(y, '\n'));
  }

  /** The empty text yields no events. */
  lemma EventsEmpty(f: string -> seq<Json>)
    requires f("") == []
    ensures Events(f, "") == []
  {
    assert Strings.Split("", '\n') == [""];
    FlatMapOne(f, "");
  }

  /** Text separated by a blank line: its events are those of the two sides. */
  lemma EventsAroundBlankLine(f: string -> seq<Json>, x: string, y: string)
    requires f("") == []
    ensures Events(f, x + "\n\n" + y) == Events(f, x) + Events(f, y)
  {
    var z := "" + "\n" + y;
    assert x + "\n\n" + y == x + "\n" + z;
    EventsAroundNewline(f, x, z);
    EventsAroundNewline(f, "", y);
    EventsEmpty(f);
  }

  /** A trailing line feed adds no event. */
  lemma EventsTrailingNewline(f: string -> seq<Json>, x: string)
    requires f("") == []
    ensures Events(f, x + "\n") == Events(f, x)
  {
    assert x + "\n" == x + "\n" + "";
    EventsAroundNewline(f, x, "");
    EventsEmpty(f);
  }

  /** A character put in front of the first block goes in front of the glued text. */
  lemma JoinBlocksPrepend(c: char, bs: seq<string>)
    requires |bs| >= 1
    ensures JoinBlocks([[c] + bs[0]] + bs[1..]) == [c] + JoinBlocks(bs)
  {
    var cs := [[c] + bs[0]] + bs[1..];
    assert cs[0] == [c] + bs[0] && |cs| == |bs|;
    if |bs| > 1 {
      var j := JoinBlocks(bs[1..]);
      assert cs[1..] == bs[1..];
      assert JoinBlocks(cs) == ([c] + bs[0]) + "\n\n" + j;
      assert JoinBlocks(bs) == bs[0] + "\n\n" + j;
      Regroup([c], bs[0], "\n\n", j);
    }
  }

  lemma Regroup(w: string, x: string, y: string, z: string)
    ensures (w + x) + y + z == w + (x + y + z)
  {
  }

  /** `SplitBlocks` loses nothing: gluing the blocks back gives the text. */
  lemma {:induction false} JoinSplitBlocks(text: string)
    ensures JoinBlocks(SplitBlocks(text)) == text
    decreases |text|
  {
    if text == [] {
    } else if |text| >= 2 && text[0] == '\n' && text[1] == '\n' {
      JoinSplitBlocks(text[2..]);
      assert SplitBlocks(text)[1..] == SplitBlocks(text[2..]);
      assert text == "" + "\n\n" + text[2..];
    } else {
      JoinSplitBlocks(text[1..]);
      JoinBlocksPrepend(text[0], SplitBlocks(text[1..]));
      assert text == [text[0]] + text[1..];
    }
  }

  /** Whatever blocks are glued with blank lines, the events of the glued text are the blocks' events. */
  lemma {:induction false} JoinedBlocksEvents(f: string -> seq<Json>, bs: seq<string>)
    requires f("") == []
    requires |bs| >= 1
    ensures Events(f, JoinBlocks(bs)) == FlatMap(EventsFn(f), bs)
    decreases |bs|
  {
    if |bs| == 1 {
      assert bs == [bs[0]];
      FlatMapOne(EventsFn(f), bs[0]);
    } else {
      var j := JoinBlocks(bs[1..]);
      JoinedBlocksEvents(f, bs[1..]);
      assert JoinBlocks(bs) == bs[0] + "\n\n" + j;
      EventsAroundBlankLine(f, bs[0], j);
      assert bs == [bs[0]] + bs[1..];
      FlatMapCons(EventsFn(f), bs[0], bs[1..]);
    }
  }

  /** Splitting into blocks first changes nothing: only blank lines are lost, and they carry no event. */
  lemma BlocksEventsAreEvents(f: string -> seq<Json>, text: string)
    requires f("") == []
    ensures FlatMap(EventsFn(f), SplitBlocks(text)) == Events(f, text)
  {
    JoinSplitBlocks(text);
    JoinedBlocksEvents(f, SplitBlocks(text));
  }

  /** One read's cut (`lastIndexOf('\n\n')`, then two slices): the ready part, if any, and the kept
      buffer. The buffer is the ready part, a blank line and the kept rest, and the rest holds no
      blank line. */
  function Frame(buffer: string): (r: (Option<string>, string))
    ensures r.0.None? ==> r.1 == buffer
    ensures r.0.Some? ==> buffer == r.0.value + "\n\n" + r.1
    ensures forall i :: !Strings.PairAt(r.1, i)
  {
    var k := Strings.LastDoubleNewline(buffer);
    if k == -1 then (None, buffer)
    else
      var rest := buffer[k + 2..];
      assert buffer == buffer[..k] + "\n\n" + rest;
      assert forall i :: Strings.PairAt(rest, i) ==> Strings.PairAt(buffer, k + 2 + i);
      (Some(buffer[..k]), rest)
  }

  /** The events of everything before the last blank line of `text`: what a reader of `text`
      parses, however `text` was cut into chunks. */
  function FramedEvents(f: string -> seq<Json>, text: string): seq<Json> {
    var k := Strings.LastDoubleNewline(text);
    if k == -1 then [] else Events(f, text[..k])
  }

  /** The kept buffer after a sequence of reads, starting from an empty buffer. */
  function Buffered(chunks: seq<string>): string {
    if chunks == [] then "" else Frame(Buffered(chunks[..|chunks| - 1]) + chunks[|chunks| - 1]).1
  }

  /** The part a read hands to the parser: what precedes the last blank line of the buffer
      after appending the chunk. */
  function ReadyPart(chunks: seq<string>): Option<string>
    requires chunks != []
  {
    Frame(Buffered(chunks[..|chunks| - 1]) + chunks[|chunks| - 1]).0
  }

  /** The events parsed after a sequence of reads. */
  function FedEvents(f: string -> seq<Json>, chunks: seq<string>): seq<Json> {
    if chunks == [] then []
    else
      var prev := FedEvents(f, chunks[..|chunks| - 1]);
      match ReadyPart(chunks)
      case None => prev
      case Some(ready) => prev + Events(f, ready)
  }

  /** The text a reader has consumed: all ready parts, each followed by its blank line. */
  ghost function Consumed(chunks: seq<string>): string {
    if chunks == [] then ""
    else
      var prev := Consumed(chunks[..|chunks| - 1]);
      match ReadyPart(chunks)
      case None => prev
      case Some(ready) => prev + ready + "\n\n"
  }

  /** The kept buffer never holds a blank line. */
  lemma BufferedHasNoBlankLine(chunks: seq<string>)
    ensures forall i :: !Strings.PairAt(Buffered(chunks), i)
  {
  }

  /** The consumed text is empty or ends with a blank line. */
  lemma {:induction false} ConsumedEndsWithBlankLine(chunks: seq<string>)
    ensures Consumed(chunks) == "" || Strings.EndsWith(Consumed(chunks), "\n\n")
    decreases |chunks|
  {
    if chunks != [] {
      if ReadyPart(chunks).Some? {
        var t := Consumed(chunks[..|chunks| - 1]) + ReadyPart(chunks).value;
        assert Consumed(chunks) == t + "\n\n";
        assert (t + "\n\n")[|t|..] == "\n\n";
      } else {
        ConsumedEndsWithBlankLine(chunks[..|chunks| - 1]);
      }
    }
  }

  /** One cut loses nothing: text before the buffer, the ready part, its blank line and the kept
      rest are the text before the buffer and the buffer. */
  lemma FrameKeepsText(prev: string, b: string)
    ensures prev + b == (if Frame(b).0.Some? then prev + Frame(b).0.value + "\n\n" else prev) + Frame(b).1
  {
    if Frame(b).0.Some? {
      var r := Frame(b).0.value;
      assert prev + b == (prev + r + "\n\n") + Frame(b).1;
    }
  }

  /** Consumed text and buffer make up the input so far. */
  lemma {:induction false} ConsumedAndBuffered(chunks: seq<string>)
    ensures Strings.Concat(chunks) == Consumed(chunks) + Buffered(chunks)
    decreases |chunks|
  {
    if chunks != [] {
      var init := chunks[..|chunks| - 1];
      ConsumedAndBuffered(init);
      FrameKeepsText(Consumed(init), Buffered(init) + chunks[|chunks| - 1]);
    }
  }

  /** Appending a part closed by a blank line to text that is empty or closed by one appends the
      part's events. */
  lemma EventsAfterClosedText(f: string -> seq<Json>, p: string, r: string)
    requires f("") == []
    requires p == "" || Strings.EndsWith(p, "\n\n")
    ensures Events(f, p + r + "\n\n") == Events(f, p) + Events(f, r)
  {
    EventsAroundBlankLine(f, r, "");
    EventsEmpty(f);
    assert r + "\n\n" + "" == r + "\n\n";
    if p == "" {
      assert p + r + "\n\n" == r + "\n\n";
    } else {
      var p0 := p[..|p| - 2];
      assert p == p0 + "\n\n" + "";
      assert p + r + "\n\n" == p0 + "\n\n" + (r + "\n\n");
      EventsAroundBlankLine(f, p0, "");
      EventsAroundBlankLine(f, p0, r + "\n\n");
    }
  }

  /** The events parsed so far are those of the consumed text. */
  lemma {:induction false} FedEventsConsumed(f: string -> seq<Json>, chunks: seq<string>)
    requires f("") == []
    ensures FedEvents(f, chunks) == Events(f, Consumed(chunks))
    decreases |chunks|
  {
    if chunks == [] {
      EventsEmpty(f);
    } else {
      var init := chunks[..|chunks| - 1];
      FedEventsConsumed(f, init);
      if ReadyPart(chunks).Some? {
        ConsumedEndsWithBlankLine(init);
        EventsAfterClosedText(f, Consumed(init), ReadyPart(chunks).value);
      }
    }
  }

  /** Consumed text plus a buffer without blank lines: the events of the consumed text are the
      framed events of the whole. */
  lemma FramedOfConsumed(f: string -> seq<Json>, p: string, b: string)
    requires f("") == []
    requires p == "" || Strings.EndsWith(p, "\n\n")
    requires forall i :: !Strings.PairAt(b, i)
    ensures FramedEvents(f, p + b) == Events(f, p)
  {
    var t := p + b;
    var k := Strings.LastDoubleNewline(t);
    if p == "" {
      assert t == b;
      EventsEmpty(f);
    } else {
      var n := |p|;
      assert Strings.PairAt(t, n - 2);
      assert k <= n - 1 by {
        if k >= n { assert Strings.PairAt(b, k - n); }
      }
      var p0 := p[..n - 2];
      assert p == p0 + "\n\n" + "";
      EventsAroundBlankLine(f, p0, "");
      EventsEmpty(f);
      if k == n - 2 {
        assert t[..k] == p0;
      } else {
        assert t[..k] == p0 + "\n";
        EventsTrailingNewline(f, p0);
      }
    }
  }

  /** Chunk independence: after any sequence of reads, the events parsed are the framed events of
      the concatenated input, and the kept buffer holds no blank line. */
  lemma FedIsFramed(f: string -> seq<Json>, chunks: seq<string>)
    requires f("") == []
    ensures FedEvents(f, chunks) == FramedEvents(f, Strings.Concat(chunks))
    ensures forall i :: !Strings.PairAt(Buffered(chunks), i)
  {
    ConsumedAndBuffered(chunks);
    ConsumedEndsWithBlankLine(chunks);
    BufferedHasNoBlankLine(chunks);
    FedEventsConsumed(f, chunks);
    FramedOfConsumed(f, Consumed(chunks), Buffered(chunks));
  }

  /** Two chunkings of the same text parse to the same events. */
  lemma ChunkingIrrelevant(f: string -> seq<Json>, c1: seq<string>, c2: seq<string>)
    requires f("") == []
    requires Strings.Concat(c1) == Strings.Concat(c2)
    ensures FedEvents(f, c1) == FedEvents(f, c2)
  {
    FedIsFramed(f, c1);
    FedIsFramed(f, c2);
  }

  /** Reading more text only appends events. */
  lemma FramedPrefix(f: string -> seq<Json>, t: string, u: string)
    ensures |FramedEvents(f, t)| <= |FramedEvents(f, t + u)|
    ensures FramedEvents(f, t) == FramedEvents(f, t + u)[..|FramedEvents(f, t)|]
  {
    var k := Strings.LastDoubleNewline(t);
    var tu := t + u;
    var k' := Strings.LastDoubleNewline(tu);
    if k != -1 {
      assert Strings.PairAt(tu, k);
      if k' > k {
        var mid := tu[k + 1..k'];
        assert tu[..k'] == t[..k] + "\n" + mid;
        EventsAroundNewline(f, t[..k], mid);
      } else {
        assert tu[..k'] == t[..k];
      }
    }
  }

  /** A last frame that no blank line closes is never parsed: text after a final blank line that
      holds no blank line of its own adds no event. */
  lemma UnterminatedFrameIgnored(f: string -> seq<Json>, t: string, tail: string)
    requires f("") == []
    requires Strings.EndsWith(t, "\n\n")
    requires forall i :: !Strings.PairAt(tail, i)
    ensures FramedEvents(f, t + tail) == FramedEvents(f, t)
  {
    var n := |t|;
    var tt := t + tail;
    var p0 := t[..n - 2];
    assert Strings.PairAt(t, n - 2);
    assert Strings.PairAt(tt, n - 2);
    forall i | n - 1 < i
      ensures !Strings.PairAt(tt, i)
    {
      if Strings.PairAt(tt, i) {
        assert Strings.PairAt(tail, i - n);
      }
    }
    if tail != [] && tail[0] == '\n' {
      assert Strings.PairAt(tt, n - 1);
      assert tt[..n - 1] == p0 + "\n";
      EventsTrailingNewline(f, p0);
    } else {
      assert !Strings.PairAt(tt, n - 1);
      assert tt[..n - 2] == p0;
    }
  }

  /** The events one read hands to the parser, given the buffer after appending the chunk. */
  function ReadyEvents(f: string -> seq<Json>, buffer: string): seq<Json> {
    match Frame(buffer).0
    case None => []
    case Some(ready) => Events(f, ready)
  }

  /** One more read: the kept buffer is reframed and the ready part's events are appended. */
  lemma FedStep(f: string -> seq<Json>, chunks: seq<string>, i: int)
    requires 0 <= i < |chunks|
    ensures Buffered(chunks[..i + 1]) == Frame(Buffered(chunks[..i]) + chunks[i]).1
    ensures FedEvents(f, chunks[..i + 1]) == FedEvents(f, chunks[..i]) + ReadyEvents(f, Buffered(chunks[..i]) + chunks[i])
  {
    assert chunks[..i + 1][..i] == chunks[..i];
  }

  /** The events parsed after the first reads are a prefix of those parsed after all of them. */
  lemma FedPrefix(f: string -> seq<Json>, chunks: seq<string>, i: int)
    requires f("") == []
    requires 0 <= i <= |chunks|
    ensures |FedEvents(f, chunks[..i])| <= |FedEvents(f, chunks)|
    ensures FedEvents(f, chunks[..i]) == FedEvents(f, chunks)[..|FedEvents(f, chunks[..i])|]
  {
    FedIsFramed(f, chunks);
    FedIsFramed(f, chunks[..i]);
    Strings.ConcatSplitAt(chunks, i);
    FramedPrefix(f, Strings.Concat(chunks[..i]), Strings.Concat(chunks[i..]));
  }
}
