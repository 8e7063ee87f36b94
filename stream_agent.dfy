/** The browser side of the chat relay (`streamAgentReply`): it posts the message, reads the
    event stream with the same framing as the relay, and turns the events into calls of
    `onDelta`, `onDone` and `onError`. The calls are returned as a trace; the response (its
    status, its JSON body when `res.json()` succeeds, and its body's chunks) is an input. */
module StreamAgent {
  import opened Wrappers
  import opened Json
  import Strings
  import Framing

  /** One callback invocation. `onError` receives `ev.error || 'error'` as it is, or the message
      of a thrown `Error`. */
  datatype Callback = OnDelta(text: string) | OnDone | OnError(error: Json)

  /** The calls made for a prefix of the events, and whether handling stopped (an error event,
      or an event that is `null`, whose `.type` throws). */
  datatype Dispatched = Dispatched(calls: seq<Callback>, stopped: bool)

  /** `ev.type === t`. */
  predicate TypeIs(ev: Json, t: string) {
    Prop(Some(ev), "type") == Some(JStr(t))
  }

  /** The calls for one event that does not stop the loop. */
  function Calls(ev: Json): seq<Callback> {
    var delta := Prop(Some(ev), "delta");
    (if TypeIs(ev, "delta") && delta.Some? && delta.value.JStr? then [OnDelta(delta.value.s)] else [])
    + (if TypeIs(ev, "done") then [OnDone] else [])
  }

  /** `ev.error || 'error'`. */
  function ErrorOf(ev: Json): Json {
    Or(Prop(Some(ev), "error"), Some(JStr("error"))).value
  }

  /** Handling events in order until the first that stops. `nullMessage` is the message of the
      `TypeError` that reading `.type` of `null` throws. */
  function Dispatch(events: seq<Json>, nullMessage: string): Dispatched {
    if events == [] then Dispatched([], false)
    else
      var ev := events[0];
      if ev == JNull then Dispatched([OnError(JStr(nullMessage))], true)
      else if TypeIs(ev, "error") then Dispatched(Calls(ev) + [OnError(ErrorOf(ev))], true)
      else
        var rest := Dispatch(events[1..], nullMessage);
        Dispatched(Calls(ev) + rest.calls, rest.stopped)
  }

  /** The calls of one event that did not stop handling, before those of the rest. */
  function Prepend(c: seq<Callback>, d: Dispatched): Dispatched {
    Dispatched(c + d.calls, d.stopped)
  }

  /** Handling two runs of events one after the other: the second only when the first did not
      stop. */
  function Combine(d1: Dispatched, d2: Dispatched): Dispatched {
    if d1.stopped then d1 else Dispatched(d1.calls + d2.calls, d2.stopped)
  }

  /** One event, then the rest. */
  lemma DispatchFirst(events: seq<Json>, nullMessage: string)
    requires events != []
    ensures var ev := events[0];
            Dispatch(events, nullMessage)
            == if ev == JNull then Dispatched([OnError(JStr(nullMessage))], true)
               else if TypeIs(ev, "error") then Dispatched(Calls(ev) + [OnError(ErrorOf(ev))], true)
               else Prepend(Calls(ev), Dispatch(events[1..], nullMessage))
  {
  }

  lemma DispatchAt(events: seq<Json>, j: nat, nullMessage: string)
    requires j < |events|
    ensures var ev := events[j];
            Dispatch(events[j..], nullMessage)
            == if ev == JNull then Dispatched([OnError(JStr(nullMessage))], true)
               else if TypeIs(ev, "error") then Dispatched(Calls(ev) + [OnError(ErrorOf(ev))], true)
               else Prepend(Calls(ev), Dispatch(events[j + 1..], nullMessage))
  {
    assert events[j..][0] == events[j] && events[j..][1..] == events[j + 1..];
    DispatchFirst(events[j..], nullMessage);
  }

  lemma PrependCombine(c: seq<Callback>, d1: Dispatched, d2: Dispatched)
    ensures Prepend(c, Combine(d1, d2)) == Combine(Prepend(c, d1), d2)
  {
    assert c + (d1.calls + d2.calls) == (c + d1.calls) + d2.calls;
  }

  /** Handling `a` then `b` is handling `a + b`; once stopped, nothing more is handled. */
  lemma {:induction false} DispatchAppend(a: seq<Json>, b: seq<Json>, nullMessage: string)
    ensures Dispatch(a + b, nullMessage) == Combine(Dispatch(a, nullMessage), Dispatch(b, nullMessage))
  {
    if a == [] {
      assert a + b == b;
      assert [] + Dispatch(b, nullMessage).calls == Dispatch(b, nullMessage).calls;
    } else {
      var s := a + b;
      assert s[0] == a[0] && s[1..] == a[1..] + b;
      DispatchFirst(s, nullMessage);
      DispatchFirst(a, nullMessage);
      var ev := a[0];
      if ev != JNull && !TypeIs(ev, "error") {
        DispatchAppend(a[1..], b, nullMessage);
        PrependCombine(Calls(ev), Dispatch(a[1..], nullMessage), Dispatch(b, nullMessage));
      }
    }
  }

  /** The inner loop over one read's events: the calls made, and whether an error stopped it. */
  method DispatchEvents(events: seq<Json>, nullMessage: string) returns (calls: seq<Callback>, aborted: bool)
    ensures Dispatched(calls, aborted) == Dispatch(events, nullMessage)
  {
    calls := [];
    aborted := false;
    var j := 0;
    assert events[0..] == events;
    PrependNothing(Dispatch(events, nullMessage));
    while j < |events|
      invariant 0 <= j <= |events|
      invariant Dispatch(events, nullMessage) == Prepend(calls, Dispatch(events[j..], nullMessage))
    {
      var ev := events[j];
      DispatchAt(events, j, nullMessage);
      if ev == JNull {
        return calls + [OnError(JStr(nullMessage))], true;
      }
      // The calls this event makes, in the order the loop body makes them.
      var t := Prop(Some(ev), "type");
      var delta := Prop(Some(ev), "delta");
      var made: seq<Callback> := [];
      if t == Some(JStr("delta")) && delta.Some? && delta.value.JStr? {
        made := [OnDelta(delta.value.s)];
      }
      if t == Some(JStr("done")) {
        made := made + [OnDone];
      }
      assert made == Calls(ev);
      if t == Some(JStr("error")) {
        assert calls + (made + [OnError(ErrorOf(ev))]) == (calls + made) + [OnError(ErrorOf(ev))];
        return (calls + made) + [OnError(ErrorOf(ev))], true;
      }
      PrependTwice(calls, made, Dispatch(events[j + 1..], nullMessage));
      calls := calls + made;
      j := j + 1;
    }
    assert events[j..] == [];
  }

  lemma PrependNothing(d: Dispatched)
    ensures Prepend([], d) == d
  {
    assert [] + d.calls == d.calls;
  }

  lemma PrependTwice(a: seq<Callback>, b: seq<Callback>, d: Dispatched)
    ensures Prepend(a, Prepend(b, d)) == Prepend(a + b, d)
  {
    assert a + (b + d.calls) == (a + b) + d.calls;
  }

  /** The fetched response: `res.ok`, `res.status`, the value `res.json()` resolves to (`None`
      when it rejects), and the body's chunks (`None` when there is no body). */
  datatype Response = Response(ok: bool, status: int, json: Option<Json>, body: Option<seq<string>>)

  /** `e?.message || String(e)` for an `Error` made with message `m`. */
  function Thrown(m: string): Callback {
    OnError(JStr(if m != "" then m else "Error"))
  }

  /** The message of a failed response: the body's `error` when truthy, else `HTTP <status>`. */
  function FailureMessage(res: Response): string {
    var fallback := JStr("HTTP " + Strings.IntToString(res.status));
    JsString(Or(Prop(res.json, "error"), Some(fallback)).value)
  }

  /** Everything `streamAgentReply` calls, in order. */
  function Reply(parse: string -> Option<Json>, res: Response, nullMessage: string): seq<Callback> {
    if !res.ok then [Thrown(FailureMessage(res))]
    else if res.body.None? then [Thrown("No response body")]
    else
      var d := Dispatch(Framing.FramedEvents(Framing.LineFn(parse, Framing.KeepAsDelta), Strings.Concat(res.body.value)), nullMessage);
      if d.stopped then d.calls else d.calls + [OnDone]
  }

  /** One read: append the chunk, cut the buffer at its last blank line, and handle the ready
      part's events until one stops. */
  method Read(parse: string -> Option<Json>, buffer: string, chunk: string, nullMessage: string)
    returns (kept: string, calls: seq<Callback>, aborted: bool)
    ensures kept == Framing.Frame(buffer + chunk).1
    ensures Dispatched(calls, aborted)
            == Dispatch(Framing.ReadyEvents(Framing.LineFn(parse, Framing.KeepAsDelta), buffer + chunk), nullMessage)
  {
    var joined := buffer + chunk;
    var k := Strings.LastDoubleNewline(joined);
    if k == -1 {
      return joined, [], false;
    }
    kept := joined[k + 2..];
    var events := Framing.ParseDataLines(parse, Framing.KeepAsDelta, joined[..k]);
    calls, aborted := DispatchEvents(events, nullMessage);
  }

  /** `streamAgentReply`: the read loop keeps the unparsed rest in `buffer` and stops at the first
      error. What it calls depends only on the concatenated body, not on how it was chunked. */
  method StreamAgentReply(parse: string -> Option<Json>, res: Response, nullMessage: string) returns (trace: seq<Callback>)
    ensures trace == Reply(parse, res, nullMessage)
  {
    if !res.ok {
      return [Thrown(FailureMessage(res))];
    }
    if res.body.None? {
      return [Thrown("No response body")];
    }
    var chunks := res.body.value;
    ghost var f := Framing.LineFn(parse, Framing.KeepAsDelta);
    Framing.LineFnSilentOnBlank(parse, Framing.KeepAsDelta);
    trace := [];
    var buffer := "";
    var abortedByError := false;
    var i := 0;
    while i < |chunks| && !abortedByError
      invariant 0 <= i <= |chunks|
      invariant buffer == Framing.Buffered(chunks[..i])
      invariant Dispatched(trace, abortedByError) == Dispatch(Framing.FedEvents(f, chunks[..i]), nullMessage)
    {
      Framing.FedStep(f, chunks, i);
      DispatchAppend(Framing.FedEvents(f, chunks[..i]), Framing.ReadyEvents(f, buffer + chunks[i]), nullMessage);
      var calls, aborted;
      buffer, calls, aborted := Read(parse, buffer, chunks[i], nullMessage);
      trace := trace + calls;
      abortedByError := aborted;
      i := i + 1;
    }
    Finish(f, chunks, i, nullMessage);
    if !abortedByError {
      trace := trace + [OnDone];
    }
  }

  /** Where the read loop stopped does not matter: the calls are those for the framed events of
      the whole body. */
  lemma Finish(f: string -> seq<Json>, chunks: seq<string>, i: int, nullMessage: string)
    requires f("") == [] && 0 <= i <= |chunks|
    requires i < |chunks| ==> Dispatch(Framing.FedEvents(f, chunks[..i]), nullMessage).stopped
    ensures Dispatch(Framing.FedEvents(f, chunks[..i]), nullMessage)
            == Dispatch(Framing.FramedEvents(f, Strings.Concat(chunks)), nullMessage)
  {
    var fed := Framing.FedEvents(f, chunks[..i]);
    if i < |chunks| {
      Framing.FedPrefix(f, chunks, i);
      var all := Framing.FedEvents(f, chunks);
      assert all == fed + all[|fed|..];
      DispatchAppend(fed, all[|fed|..], nullMessage);
    } else {
      assert chunks[..i] == chunks;
    }
    Framing.FedIsFramed(f, chunks);
  }
  // ----- what the callbacks see -----

  /** The event at which handling stops: the first `null` or error event, or the end. */
  function StopIndex(events: seq<Json>): (p: nat)
    ensures p <= |events|
  {
    if events == [] then 0
    else if events[0] == JNull || TypeIs(events[0], "error") then 0
    else 1 + StopIndex(events[1..])
  }

  /** The string deltas of the delta events, in order. */
  function DeltaTexts(events: seq<Json>): seq<string> {
    if events == [] then []
    else
      var delta := Prop(Some(events[0]), "delta");
      (if TypeIs(events[0], "delta") && delta.Some? && delta.value.JStr? then [delta.value.s] else [])
      + DeltaTexts(events[1..])
  }

  /** The number of done events. */
  function DoneCount(events: seq<Json>): nat {
    if events == [] then 0 else (if TypeIs(events[0], "done") then 1 else 0) + DoneCount(events[1..])
  }

  /** The texts passed to `onDelta`, in order. */
  function Deltas(calls: seq<Callback>): seq<string> {
    if calls == [] then [] else (if calls[0].OnDelta? then [calls[0].text] else []) + Deltas(calls[1..])
  }

  /** The number of `onDone` calls. */
  function Dones(calls: seq<Callback>): nat {
    if calls == [] then 0 else (if calls[0].OnDone? then 1 else 0) + Dones(calls[1..])
  }

  lemma {:induction false} CallbacksAppend(a: seq<Callback>, b: seq<Callback>)
    ensures Deltas(a + b) == Deltas(a) + Deltas(b) && Dones(a + b) == Dones(a) + Dones(b)
  {
    if a == [] {
      assert a + b == b;
    } else {
      assert (a + b)[0] == a[0] && (a + b)[1..] == a[1..] + b;
      CallbacksAppend(a[1..], b);
    }
  }

  /** The calls of one event: its string delta if it is a delta event, `onDone` if it is a done
      event, never `onError`. */
  lemma CallsOfEvent(ev: Json)
    ensures var delta := Prop(Some(ev), "delta");
            && Deltas(Calls(ev)) == (if TypeIs(ev, "delta") && delta.Some? && delta.value.JStr? then [delta.value.s] else [])
            && Dones(Calls(ev)) == (if TypeIs(ev, "done") then 1 else 0)
            && (forall k :: 0 <= k < |Calls(ev)| ==> !Calls(ev)[k].OnError?)
            && (TypeIs(ev, "error") ==> Calls(ev) == [])
  {
    var delta := Prop(Some(ev), "delta");
    var a := if TypeIs(ev, "delta") && delta.Some? && delta.value.JStr? then [OnDelta(delta.value.s)] else [];
    var b := if TypeIs(ev, "done") then [OnDone] else [];
    CallbacksAppend(a, b);
    assert Deltas(b) == [] && Dones(a) == 0;
  }

  /** The stop index and the two counts, one event further. */
  lemma EventsStep(events: seq<Json>)
    requires events != [] && events[0] != JNull && !TypeIs(events[0], "error")
    ensures var ev := events[0];
            var delta := Prop(Some(ev), "delta");
            var p := StopIndex(events);
            && p == 1 + StopIndex(events[1..])
            && DeltaTexts(events[..p])
               == (if TypeIs(ev, "delta") && delta.Some? && delta.value.JStr? then [delta.value.s] else [])
                  + DeltaTexts(events[1..][..p - 1])
            && DoneCount(events[..p]) == (if TypeIs(ev, "done") then 1 else 0) + DoneCount(events[1..][..p - 1])
  {
    var p := StopIndex(events);
    assert events[..p][0] == events[0] && events[..p][1..] == events[1..][..p - 1];
  }

  /** `onDelta` gets the string delta of every delta event before the stop, in order; `onDone` is
      called once per done event before it; and `onError` is called only as the very last call,
      exactly when handling stopped. */
  lemma DispatchShape(events: seq<Json>, nullMessage: string)
    ensures var d := Dispatch(events, nullMessage);
            var p := StopIndex(events);
            && Deltas(d.calls) == DeltaTexts(events[..p])
            && Dones(d.calls) == DoneCount(events[..p])
            && (d.stopped <==> p < |events|)
            && (d.stopped ==> |d.calls| > 0 && d.calls[|d.calls| - 1].OnError?)
            && (forall k :: 0 <= k < |d.calls| && (k < |d.calls| - 1 || !d.stopped) ==> !d.calls[k].OnError?)
  {
    DispatchCounts(events, nullMessage);
    DispatchErrors(events, nullMessage);
  }

  lemma {:induction false} DispatchCounts(events: seq<Json>, nullMessage: string)
    ensures var d := Dispatch(events, nullMessage);
            var p := StopIndex(events);
            && Deltas(d.calls) == DeltaTexts(events[..p])
            && Dones(d.calls) == DoneCount(events[..p])
  {
    if events == [] {
      assert events[..0] == [];
    } else {
      var ev := events[0];
      DispatchFirst(events, nullMessage);
      CallsOfEvent(ev);
      if ev == JNull || TypeIs(ev, "error") {
        assert events[..0] == [];
        var e := Dispatch(events, nullMessage).calls[0];
        assert Dispatch(events, nullMessage).calls == [e] && e.OnError?;
        assert Deltas([e]) == [] && Dones([e]) == 0;
      } else {
        var rest := Dispatch(events[1..], nullMessage);
        DispatchCounts(events[1..], nullMessage);
        EventsStep(events);
        CallbacksAppend(Calls(ev), rest.calls);
      }
    }
  }

  lemma {:induction false} DispatchErrors(events: seq<Json>, nullMessage: string)
    ensures var d := Dispatch(events, nullMessage);
            && (d.stopped <==> StopIndex(events) < |events|)
            && (d.stopped ==> |d.calls| > 0 && d.calls[|d.calls| - 1].OnError?)
            && (forall k :: 0 <= k < |d.calls| && (k < |d.calls| - 1 || !d.stopped) ==> !d.calls[k].OnError?)
  {
    if events != [] {
      var ev := events[0];
      DispatchFirst(events, nullMessage);
      CallsOfEvent(ev);
      if ev != JNull && !TypeIs(ev, "error") {
        var rest := Dispatch(events[1..], nullMessage);
        DispatchErrors(events[1..], nullMessage);
        var d := Dispatch(events, nullMessage);
        assert d.calls == Calls(ev) + rest.calls;
        forall k | 0 <= k < |d.calls| && (k < |d.calls| - 1 || !d.stopped) ensures !d.calls[k].OnError? {
          if k >= |Calls(ev)| { assert d.calls[k] == rest.calls[k - |Calls(ev)|]; }
        }
      }
    }
  }

  /** What the user sees: a failed response or a missing body gives exactly one `onError` and
      nothing else. Otherwise `onDelta` gets every string delta before the first error, in order;
      `onDone` fires once per done event and once more at the end of a stream that had no error,
      so it can fire twice; and `onError` comes at most once, as the last call. */
  lemma ReplyShape(parse: string -> Option<Json>, res: Response, nullMessage: string)
    ensures var trace := Reply(parse, res, nullMessage);
            && (!res.ok || res.body.None? ==> |trace| == 1 && trace[0].OnError?)
            && (res.ok && res.body.Some? ==>
                  var events := Framing.FramedEvents(Framing.LineFn(parse, Framing.KeepAsDelta), Strings.Concat(res.body.value));
                  var p := StopIndex(events);
                  && Deltas(trace) == DeltaTexts(events[..p])
                  && Dones(trace) == DoneCount(events[..p]) + (if p == |events| then 1 else 0)
                  && (forall k :: 0 <= k < |trace| - 1 ==> !trace[k].OnError?)
                  && (p < |events| <==> trace != [] && trace[|trace| - 1].OnError?))
  {
    if res.ok && res.body.Some? {
      var events := Framing.FramedEvents(Framing.LineFn(parse, Framing.KeepAsDelta), Strings.Concat(res.body.value));
      assert Reply(parse, res, nullMessage) == Finalized(Dispatch(events, nullMessage));
      FinalizedShape(events, nullMessage);
    }
  }

  /** The calls for a body that was read to the end: `onDone` once more unless an error stopped
      handling. */
  function Finalized(d: Dispatched): seq<Callback> {
    if d.stopped then d.calls else d.calls + [OnDone]
  }

  lemma FinalizedShape(events: seq<Json>, nullMessage: string)
    ensures var trace := Finalized(Dispatch(events, nullMessage));
            var p := StopIndex(events);
            && Deltas(trace) == DeltaTexts(events[..p])
            && Dones(trace) == DoneCount(events[..p]) + (if p == |events| then 1 else 0)
            && (forall k :: 0 <= k < |trace| - 1 ==> !trace[k].OnError?)
            && (p < |events| <==> trace != [] && trace[|trace| - 1].OnError?)
  {
    var d := Dispatch(events, nullMessage);
    DispatchShape(events, nullMessage);
    if !d.stopped {
      CallbacksAppend(d.calls, [OnDone]);
      assert Deltas([OnDone]) == [] && Dones([OnDone]) == 1;
    }
  }
}
