/** What the relays send to the browser: `sse(encoder, obj)` writes one `data:` frame per event,
    with `'[DONE]'` written as the bare sentinel. `JSON.stringify` is a parameter. */
module Downstream {
  import opened Wrappers
  import opened Json
  import Strings
  import Framing

  /** The events the two relays emit. */
  datatype Out =
    | MetaAgent(agentId: Option<Json>, agentName: Option<Json>)  // { type: 'meta', agentId, agentName }
    | MetaConversation(conversationId: Json)           // { type: 'meta', conversationId }
    | MetaScore(convId: string, scoreId: string)       // { type: 'meta', convId, scoreId }
    | Delta(delta: string)                             // { type: 'delta', delta }
    | ErrorOut(error: string)                          // { type: 'error', error }
    | DoneScore(scoreId: string, mode: string)         // { type: 'done', scoreId, mode }
    | Sentinel                                         // '[DONE]'

  /** A field `JSON.stringify` writes: an `undefined` value is left out. */
  function Defined(key: string, v: Option<Json>): map<string, Json> {
    if v.Some? then map[key := v.value] else map[]
  }

  /** The object an event is written as. */
  function ToJson(o: Out): (j: Json)
    requires !o.Sentinel?
    ensures j.JObj? && "type" in j.fields && j.fields["type"].JStr?
  {
    match o
    case MetaAgent(id, name) => JObj(map["type" := JStr("meta")] + Defined("agentId", id) + Defined("agentName", name))
    case MetaConversation(c) => JObj(map["type" := JStr("meta"), "conversationId" := c])
    case MetaScore(c, s) => JObj(map["type" := JStr("meta"), "convId" := JStr(c), "scoreId" := JStr(s)])
    case Delta(d) => JObj(map["type" := JStr("delta"), "delta" := JStr(d)])
    case ErrorOut(e) => JObj(map["type" := JStr("error"), "error" := JStr(e)])
    case DoneScore(s, m) => JObj(map["type" := JStr("done"), "scoreId" := JStr(s), "mode" := JStr(m)])
  }

  /** The payload after `data: `. */
  function Payload(stringify: Json -> string, o: Out): string {
    if o.Sentinel? then "[DONE]" else stringify(ToJson(o))
  }

  /** `sse(encoder, obj)`: one frame, `data: ` + payload + a blank line. */
  function Sse(stringify: Json -> string, o: Out): (frame: string)
    ensures Strings.StartsWith(frame, "data: ") && Strings.EndsWith(frame, "\n\n")
    ensures o.Sentinel? ==> frame == "data: [DONE]\n\n"
  {
    "data: " + Payload(stringify, o) + "\n\n"
  }

  /** Everything written for a run of events. */
  function Wire(stringify: Json -> string, outs: seq<Out>): string {
    if outs == [] then "" else Wire(stringify, outs[..|outs| - 1]) + Sse(stringify, outs[|outs| - 1])
  }

  /** What the browser makes of each event: the decoded object, or `{ type: 'done' }` for the
      sentinel. */
  function ClientEvent(o: Out): Json {
    if o.Sentinel? then Framing.DoneEvent() else ToJson(o)
  }

  function ClientEvents(outs: seq<Out>): seq<Json> {
    if outs == [] then [] else ClientEvents(outs[..|outs| - 1]) + [ClientEvent(outs[|outs| - 1])]
  }

  /** A stringified object survives the trip: one line, no surrounding spaces, not the sentinel,
      and `JSON.parse` gives it back. `JSON.stringify` without indentation escapes line breaks and
      starts an object with `{`, so every object the relays emit satisfies this. */
  predicate WireSafe(parse: string -> Option<Json>, stringify: Json -> string, j: Json) {
    var t := stringify(j);
    t != "" && '\n' !in t && !Strings.IsJsSpace(t[0]) && !Strings.IsJsSpace(t[|t| - 1])
    && t != "[DONE]" && parse(t) == Some(j)
  }

  predicate AllWireSafe(parse: string -> Option<Json>, stringify: Json -> string, outs: seq<Out>) {
    forall i :: 0 <= i < |outs| && !outs[i].Sentinel? ==> WireSafe(parse, stringify, ToJson(outs[i]))
  }

  /** Trimming a space followed by a text that neither starts nor ends with white space gives the
      text. */
  lemma TrimAfterSpace(t: string)
    requires t != "" && !Strings.IsJsSpace(t[0]) && !Strings.IsJsSpace(t[|t| - 1])
    ensures Strings.Trim(" " + t) == t
  {
    assert (" " + t)[1..] == t;
    assert Strings.TrimStartWith(" " + t, Strings.IsJsSpace) == t;
  }

  /** The payload of a frame's line is the stringified object, or `[DONE]`. */
  lemma FramePayload(t: string)
    requires t != "" && !Strings.IsJsSpace(t[0]) && !Strings.IsJsSpace(t[|t| - 1])
    ensures Framing.DataPayload("data: " + t) == Some(t)
  {
    var line := "data: " + t;
    assert line[..5] == "data:";
    assert line[5..] == " " + t;
    TrimAfterSpace(t);
  }

  /** A text without line feeds is one line. */
  lemma OneLineEvents(f: string -> seq<Json>, line: string)
    requires '\n' !in line
    ensures Framing.Events(f, line) == f(line)
  {
    Strings.SplitNoSep(line, '\n');
    Framing.FlatMapOne(f, line);
  }

  lemma FrameLineHasNoNewline(t: string)
    requires '\n' !in t
    ensures '\n' !in "data: " + t
  {
    var line := "data: " + t;
    assert forall k :: 0 <= k < |line| ==> line[k] == if k < 6 then "data: "[k] else t[k - 6];
  }

  /** A `data:` line whose payload reads as `ev` yields `ev`. */
  lemma PayloadLineEvents(parse: string -> Option<Json>, t: string, ev: Json)
    requires t != "" && '\n' !in t && !Strings.IsJsSpace(t[0]) && !Strings.IsJsSpace(t[|t| - 1])
    requires (t == "[DONE]" && ev == Framing.DoneEvent()) || (t != "[DONE]" && parse(t) == Some(ev))
    ensures Framing.Events(Framing.LineFn(parse, Framing.KeepAsDelta), "data: " + t) == [ev]
  {
    var line := "data: " + t;
    var f := Framing.LineFn(parse, Framing.KeepAsDelta);
    FramePayload(t);
    FrameLineHasNoNewline(t);
    OneLineEvents(f, line);
    PayloadEvents(parse, line, t, ev);
    assert f(line) == Framing.LineEvents(parse, Framing.KeepAsDelta, line);
  }

  lemma PayloadEvents(parse: string -> Option<Json>, line: string, t: string, ev: Json)
    requires Framing.DataPayload(line) == Some(t) && t != ""
    requires (t == "[DONE]" && ev == Framing.DoneEvent()) || (t != "[DONE]" && parse(t) == Some(ev))
    ensures Framing.LineEvents(parse, Framing.KeepAsDelta, line) == [ev]
  {
  }

  /** One frame's line gives back the event. */
  lemma FrameLineEvents(parse: string -> Option<Json>, stringify: Json -> string, o: Out)
    requires !o.Sentinel? ==> WireSafe(parse, stringify, ToJson(o))
    ensures Framing.Events(Framing.LineFn(parse, Framing.KeepAsDelta), "data: " + Payload(stringify, o))
         == [ClientEvent(o)]
  {
    if o.Sentinel? {
      var t := "[DONE]";
      assert '\n' !in t && !Strings.IsJsSpace(t[0]) && !Strings.IsJsSpace(t[|t| - 1]);
      PayloadLineEvents(parse, t, Framing.DoneEvent());
    } else {
      PayloadLineEvents(parse, stringify(ToJson(o)), ToJson(o));
    }
  }

  lemma WireClosed(stringify: Json -> string, outs: seq<Out>)
    ensures Wire(stringify, outs) == "" || Strings.EndsWith(Wire(stringify, outs), "\n\n")
  {
    if outs != [] {
      var w := Wire(stringify, outs);
      var s := Sse(stringify, outs[|outs| - 1]);
      assert w[|w| - 2..] == s[|s| - 2..];
    }
  }

  lemma WireSafePrefix(parse: string -> Option<Json>, stringify: Json -> string, outs: seq<Out>)
    requires outs != [] && AllWireSafe(parse, stringify, outs)
    ensures AllWireSafe(parse, stringify, outs[..|outs| - 1])
    ensures !outs[|outs| - 1].Sentinel? ==> WireSafe(parse, stringify, ToJson(outs[|outs| - 1]))
  {
    var prev := outs[..|outs| - 1];
    forall i | 0 <= i < |prev| && !prev[i].Sentinel?
      ensures WireSafe(parse, stringify, ToJson(prev[i]))
    {
      assert prev[i] == outs[i];
    }
  }

  lemma WireLast(stringify: Json -> string, outs: seq<Out>)
    requires outs != []
    ensures Wire(stringify, outs)
         == Wire(stringify, outs[..|outs| - 1]) + ("data: " + Payload(stringify, outs[|outs| - 1])) + "\n\n"
  {
    var w := Wire(stringify, outs[..|outs| - 1]);
    var line := "data: " + Payload(stringify, outs[|outs| - 1]);
    assert Wire(stringify, outs) == w + (line + "\n\n");
    SeqAssoc(w, line, "\n\n");
  }

  lemma SeqAssoc(a: string, b: string, c: string)
    ensures a + (b + c) == a + b + c
  {
  }

  /** The browser's line reading of what a relay wrote gives back the events, in order. */
  lemma {:induction false} WireEvents(parse: string -> Option<Json>, stringify: Json -> string, outs: seq<Out>)
    requires AllWireSafe(parse, stringify, outs)
    ensures Framing.Events(Framing.LineFn(parse, Framing.KeepAsDelta), Wire(stringify, outs)) == ClientEvents(outs)
  {
    var f := Framing.LineFn(parse, Framing.KeepAsDelta);
    Framing.LineFnSilentOnBlank(parse, Framing.KeepAsDelta);
    if outs == [] {
      Framing.EventsEmpty(f);
    } else {
      var n := |outs|;
      var prev := outs[..n - 1];
      WireSafePrefix(parse, stringify, outs);
      WireEvents(parse, stringify, prev);
      WireClosed(stringify, prev);
      var line := "data: " + Payload(stringify, outs[n - 1]);
      WireLast(stringify, outs);
      Framing.EventsAfterClosedText(f, Wire(stringify, prev), line);
      FrameLineEvents(parse, stringify, outs[n - 1]);
    }
  }

  /** However the network cuts the relay's output into chunks, the browser's buffer-and-parse loop
      reads back exactly the events the relay sent. */
  lemma WireRoundTrip(parse: string -> Option<Json>, stringify: Json -> string, outs: seq<Out>, chunks: seq<string>)
    requires AllWireSafe(parse, stringify, outs)
    requires Strings.Concat(chunks) == Wire(stringify, outs)
    ensures Framing.FedEvents(Framing.LineFn(parse, Framing.KeepAsDelta), chunks) == ClientEvents(outs)
  {
    var f := Framing.LineFn(parse, Framing.KeepAsDelta);
    Framing.LineFnSilentOnBlank(parse, Framing.KeepAsDelta);
    Framing.FedIsFramed(f, chunks);
    WireClosed(stringify, outs);
    assert Wire(stringify, outs) + "" == Wire(stringify, outs);
    Framing.FramedOfConsumed(f, Wire(stringify, outs), "");
    WireEvents(parse, stringify, outs);
  }
}
