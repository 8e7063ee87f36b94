/** The read loop both relays run over the upstream event stream (`POST` of the chat relay and
    `GET` of the score relay): the buffer is framed at its last blank line, each parsed event first
    syncs the correlation ids, then either stops the loop on an upstream error or feeds its text to
    the delta reconciler, and a `finish` status stops the loop. The two relays differ only in
    whether the text is escape-decoded and in the fallback error text. */
module Relay {
  import Seqs
  import opened Wrappers
  import opened Json
  import Strings
  import Framing
  import Reconcile
  import opened UpstreamEvent
  import opened Downstream

  /** Whether the loop is still reading, and if not, why it stopped. */
  datatype Ending = Open | Failed(message: string) | Finished

  /** What distinguishes the two relays. */
  datatype Variant = Variant(decode: bool, errorFallback: string)

  const ChatVariant: Variant := Variant(true, "error")
  const ScoreVariant: Variant := Variant(false, "upstream error")

  /** The loop's state: the conversation's `agentConversationId` and `agentLastHistoryId`, how
      many times the former changed, `lastText`, `finalText`, the events enqueued for the client
      and the ending. */
  datatype RelayState = RelayState(
    conversationId: Option<Json>,
    historyId: Option<Json>,
    changes: nat,
    lastText: string,
    finalText: string,
    out: seq<Out>,
    ending: Ending)

  /** The state the loop starts in, after `initial` was enqueued. */
  function Start(conversationId: Option<Json>, historyId: Option<Json>, initial: seq<Out>): RelayState {
    RelayState(conversationId, historyId, 0, "", "", initial, Open)
  }

  /** What the loop body reads from one event: the two ids, the error it reports (with the
      relay's fallback text), its reply text and whether its status is `finish`. */
  datatype Reading = Reading(
    conversationId: Option<Json>,
    historyId: Option<Json>,
    error: Option<string>,
    text: Option<string>,
    finish: bool)

  function ReadEvent(v: Variant, ev: Json): (r: Reading)
    ensures r.error.Some? <==> IsUpstreamError(ev)
    ensures r.error.Some? && v.errorFallback != "" ==> r.error.value != ""
    ensures r.text.Some? ==> r.text.value != ""
  {
    Reading(ConversationId(ev), HistoryId(ev),
            if IsUpstreamError(ev) then Some(ErrorText(ev, v.errorFallback)) else None,
            ExtractText(ev, v.decode),
            Status(ev) == Some(JStr("finish")))
  }

  /** A truthy `conversation_id` that differs from the stored one is stored and announced. */
  function SyncConversation(s: RelayState, c: Option<Json>): RelayState {
    if Truthy(c) && !StrictEquals(s.conversationId, c) then
      s.(conversationId := c, changes := s.changes + 1, out := s.out + [MetaConversation(c.value)])
    else s
  }

  /** A truthy `history_id` that differs from the stored one is stored. */
  function SyncHistory(s: RelayState, h: Option<Json>): RelayState {
    if Truthy(h) && !StrictEquals(s.historyId, h) then s.(historyId := h) else s
  }

  /** A new text goes through the reconciler; `finalText` follows `lastText`. */
  function ApplyText(s: RelayState, text: string): RelayState {
    var r := Reconcile.Reconcile(s.lastText, text);
    s.(out := s.out + (if r.delta.Some? then [Delta(r.delta.value)] else []),
       lastText := r.lastText, finalText := r.lastText)
  }

  /** One event, in the order the loop body handles it. A stopped loop ignores everything. */
  function Apply(s: RelayState, r: Reading): RelayState {
    if !s.ending.Open? then s
    else
      var s1 := SyncHistory(SyncConversation(s, r.conversationId), r.historyId);
      match r.error
      case Some(m) => s1.(out := s1.out + [ErrorOut(m)], ending := Failed(m))
      case None =>
        var s2 := if r.text.Some? then ApplyText(s1, r.text.value) else s1;
        if r.finish then s2.(ending := Finished) else s2
  }

  function Step(v: Variant, s: RelayState, ev: Json): RelayState {
    Apply(s, ReadEvent(v, ev))
  }

  /** The events handled in order. */
  function Run(v: Variant, s: RelayState, evs: seq<Json>): RelayState {
    if evs == [] then s else Step(v, Run(v, s, evs[..|evs| - 1]), evs[|evs| - 1])
  }

  lemma RunOne(v: Variant, s: RelayState, evs: seq<Json>, j: int)
    requires 0 <= j < |evs|
    ensures Run(v, s, evs[..j + 1]) == Step(v, Run(v, s, evs[..j]), evs[j])
  {
    assert evs[..j + 1][..j] == evs[..j];
  }

  lemma {:induction false} RunAppend(v: Variant, s: RelayState, a: seq<Json>, b: seq<Json>)
    ensures Run(v, s, a + b) == Run(v, Run(v, s, a), b)
    decreases |b|
  {
    if b == [] {
      assert a + b == a;
    } else {
      var n := |b|;
      Seqs.AppendInit(a, b);
      RunAppend(v, s, a, b[..n - 1]);
    }
  }

  /** Nothing is processed after the loop stopped. */
  lemma {:induction false} RunStopped(v: Variant, s: RelayState, evs: seq<Json>)
    requires !s.ending.Open?
    ensures Run(v, s, evs) == s
    decreases |evs|
  {
    if evs != [] {
      RunStopped(v, s, evs[..|evs| - 1]);
    }
  }

  /** Once a prefix of the events stopped the loop, the rest changes nothing. */
  lemma RunPrefixStops(v: Variant, s: RelayState, evs: seq<Json>, p: nat)
    requires p <= |evs|
    requires !Run(v, s, evs[..p]).ending.Open?
    ensures Run(v, s, evs) == Run(v, s, evs[..p])
  {
    assert evs == evs[..p] + evs[p..];
    RunAppend(v, s, evs[..p], evs[p..]);
    RunStopped(v, Run(v, s, evs[..p]), evs[p..]);
  }

  /** The loop only appends to what it enqueued. */
  lemma {:induction false} RunGrows(v: Variant, s: RelayState, evs: seq<Json>)
    ensures |s.out| <= |Run(v, s, evs).out| && Run(v, s, evs).out[..|s.out|] == s.out
    decreases |evs|
  {
    if evs != [] {
      var prev := Run(v, s, evs[..|evs| - 1]);
      RunGrows(v, s, evs[..|evs| - 1]);
      var t := Step(v, prev, evs[|evs| - 1]);
      ApplyGrows(prev, ReadEvent(v, evs[|evs| - 1]));
      assert t.out[..|s.out|] == prev.out[..|s.out|];
    }
  }

  /** One event only appends to what was enqueued. */
  lemma ApplyGrows(s: RelayState, r: Reading)
    ensures |s.out| <= |Apply(s, r).out| && Apply(s, r).out[..|s.out|] == s.out
  {
    if s.ending.Open? {
      var s1 := Synced(s, r);
      assert s1.out[..|s.out|] == s.out;
      if r.error.None? && r.text.Some? {
        var s2 := ApplyText(s1, r.text.value);
        assert s2.out[..|s1.out|] == s1.out;
      }
    }
  }

  // ----- what one event does -----

  /** The ids synced first, before the error test. */
  function Synced(s: RelayState, r: Reading): RelayState {
    SyncHistory(SyncConversation(s, r.conversationId), r.historyId)
  }

  /** An upstream error stops the loop with one error event, before any text of that event is
      used: `lastText` and `finalText` are untouched. */
  lemma ErrorStopsBeforeText(v: Variant, s: RelayState, ev: Json)
    requires s.ending.Open? && IsUpstreamError(ev)
    ensures var t := Step(v, s, ev);
            var m := ErrorText(ev, v.errorFallback);
            t.ending == Failed(m)
            && t.out == Synced(s, ReadEvent(v, ev)).out + [ErrorOut(m)]
            && t.lastText == s.lastText && t.finalText == s.finalText
  {
  }

  /** A `MetaConversation` event is enqueued exactly when the event carries a truthy
      `conversation_id` different from the stored one, and the id is then stored. */
  lemma MetaExactlyOnChange(v: Variant, s: RelayState, ev: Json)
    requires s.ending.Open?
    ensures var c := ConversationId(ev);
            var t := Step(v, s, ev);
            Truthy(c) && !StrictEquals(s.conversationId, c)
            ==> |t.out| > |s.out| && t.out[|s.out|] == MetaConversation(c.value) && t.conversationId == c
                && t.changes == s.changes + 1
    ensures var c := ConversationId(ev);
            var t := Step(v, s, ev);
            !(Truthy(c) && !StrictEquals(s.conversationId, c))
            ==> (|t.out| == |s.out| || !t.out[|s.out|].MetaConversation?) && t.conversationId == s.conversationId
                && t.changes == s.changes
  {
    var r := ReadEvent(v, ev);
    assert r.conversationId == ConversationId(ev);
    MetaOnChange(s, r);
  }

  /** `MetaExactlyOnChange` for what the loop body read. */
  lemma MetaOnChange(s: RelayState, r: Reading)
    requires s.ending.Open?
    ensures var c := r.conversationId;
            var t := Apply(s, r);
            Truthy(c) && !StrictEquals(s.conversationId, c)
            ==> |t.out| > |s.out| && t.out[|s.out|] == MetaConversation(c.value) && t.conversationId == c
                && t.changes == s.changes + 1
    ensures var c := r.conversationId;
            var t := Apply(s, r);
            !(Truthy(c) && !StrictEquals(s.conversationId, c))
            ==> (|t.out| == |s.out| || !t.out[|s.out|].MetaConversation?) && t.conversationId == s.conversationId
                && t.changes == s.changes
  {
    var s1 := SyncConversation(s, r.conversationId);
    var t := Apply(s, r);
    if Truthy(r.conversationId) && !StrictEquals(s.conversationId, r.conversationId) {
      assert s1.out == s.out + [MetaConversation(r.conversationId.value)];
    }
  }

  /** The stored ids change only to a truthy id the event carries. */
  lemma IdsChangeOnlyToCarried(v: Variant, s: RelayState, ev: Json)
    ensures var t := Step(v, s, ev);
            (t.conversationId == s.conversationId || (t.conversationId == ConversationId(ev) && Truthy(t.conversationId)))
            && (t.historyId == s.historyId || (t.historyId == HistoryId(ev) && Truthy(t.historyId)))
  {
    var r := ReadEvent(v, ev);
    assert r.conversationId == ConversationId(ev) && r.historyId == HistoryId(ev);
    IdsChangeOnlyToRead(s, r);
  }

  lemma IdsChangeOnlyToRead(s: RelayState, r: Reading)
    ensures var t := Apply(s, r);
            (t.conversationId == s.conversationId || (t.conversationId == r.conversationId && Truthy(t.conversationId)))
            && (t.historyId == s.historyId || (t.historyId == r.historyId && Truthy(t.historyId)))
  {
  }

  /** A `finish` status stops the loop after its text is used, unless the event is an error. */
  lemma FinishStops(v: Variant, s: RelayState, ev: Json)
    requires s.ending.Open? && !IsUpstreamError(ev) && Status(ev) == Some(JStr("finish"))
    ensures Step(v, s, ev).ending == Finished
  {
  }

  // ----- invariants of a run -----

  /** What every state the loop reaches satisfies: `finalText` equals `lastText`, no sentinel has
      been enqueued, an error event is enqueued only as the last event of a failed loop, and a failed
      loop's last event is its error. */
  predicate Inv(s: RelayState) {
    s.finalText == s.lastText
    && (forall i :: 0 <= i < |s.out| ==> !s.out[i].Sentinel?)
    && (forall i :: 0 <= i < |s.out| && s.out[i].ErrorOut? ==> i == |s.out| - 1 && s.ending.Failed?)
    && (s.ending.Failed? ==> |s.out| > 0 && s.out[|s.out| - 1] == ErrorOut(s.ending.message))
  }

  /** Events that are neither the sentinel nor errors: what the loop is started with. */
  predicate Plain(outs: seq<Out>) {
    forall i :: 0 <= i < |outs| ==> !outs[i].Sentinel? && !outs[i].ErrorOut?
  }

  lemma StartInv(c: Option<Json>, h: Option<Json>, initial: seq<Out>)
    requires Plain(initial)
    ensures Inv(Start(c, h, initial))
  {
  }

  /** Appending an event that is neither the sentinel nor an error to an open loop keeps `Inv`. */
  lemma AppendPlainInv(s: RelayState, o: Out)
    requires Inv(s) && s.ending.Open? && !o.Sentinel? && !o.ErrorOut?
    ensures Inv(s.(out := s.out + [o]))
  {
  }

  lemma SyncedInv(s: RelayState, r: Reading)
    requires Inv(s) && s.ending.Open?
    ensures Inv(Synced(s, r)) && Synced(s, r).ending.Open?
  {
    var s0 := SyncConversation(s, r.conversationId);
    if s0 != s {
      AppendPlainInv(s.(conversationId := r.conversationId, changes := s.changes + 1), MetaConversation(r.conversationId.value));
    }
  }

  lemma ApplyTextInv(s: RelayState, t: string)
    requires Inv(s) && s.ending.Open?
    ensures Inv(ApplyText(s, t)) && ApplyText(s, t).ending.Open?
  {
    var r := Reconcile.Reconcile(s.lastText, t);
    if r.delta.Some? {
      AppendPlainInv(s.(lastText := r.lastText, finalText := r.lastText), Delta(r.delta.value));
    } else {
      assert s.out + [] == s.out;
    }
  }

  lemma ApplyInv(s: RelayState, r: Reading)
    requires Inv(s)
    ensures Inv(Apply(s, r))
  {
    if s.ending.Open? {
      var s1 := Synced(s, r);
      SyncedInv(s, r);
      if r.error.None? && r.text.Some? {
        ApplyTextInv(s1, r.text.value);
      }
    }
  }

  lemma StepInv(v: Variant, s: RelayState, ev: Json)
    requires Inv(s)
    ensures Inv(Step(v, s, ev))
  {
    ApplyInv(s, ReadEvent(v, ev));
  }

  /** What was enqueued first stays first. */
  lemma RunKeepsFirst(v: Variant, s: RelayState, evs: seq<Json>)
    requires |s.out| >= 1
    ensures |Run(v, s, evs).out| >= 1 && Run(v, s, evs).out[0] == s.out[0]
  {
    var out := Run(v, s, evs).out;
    RunGrows(v, s, evs);
    assert out[0] == out[..|s.out|][0];
  }

  lemma {:induction false} RunInv(v: Variant, s: RelayState, evs: seq<Json>)
    requires Inv(s)
    ensures Inv(Run(v, s, evs))
    decreases |evs|
  {
    if evs != [] {
      RunInv(v, s, evs[..|evs| - 1]);
      StepInv(v, Run(v, s, evs[..|evs| - 1]), evs[|evs| - 1]);
    }
  }

  // ----- deltas and lastText -----

  /** The delta texts among the enqueued events, concatenated. */
  function Deltas(outs: seq<Out>): string {
    if outs == [] then ""
    else Deltas(outs[..|outs| - 1]) + (if outs[|outs| - 1].Delta? then outs[|outs| - 1].delta else "")
  }

  lemma {:induction false} DeltasAppend(a: seq<Out>, b: seq<Out>)
    ensures Deltas(a + b) == Deltas(a) + Deltas(b)
    decreases |b|
  {
    if b == [] {
      assert a + b == a;
    } else {
      var n := |b|;
      assert (a + b)[..|a + b| - 1] == a + b[..n - 1];
      DeltasAppend(a, b[..n - 1]);
    }
  }

  /** Appending one event adds its delta text, if any. */
  lemma DeltasSnoc(a: seq<Out>, o: Out)
    ensures Deltas(a + [o]) == Deltas(a) + if o.Delta? then o.delta else ""
  {
    assert (a + [o])[..|a|] == a;
  }

  /** The text of a reading is compatible with `lastText`: it extends it or starts differently
      from it. */
  predicate CompatibleReading(s: RelayState, r: Reading) {
    !s.ending.Open? || r.error.Some? || r.text.None? || Reconcile.Compatible(s.lastText, r.text.value)
  }

  predicate CompatibleText(v: Variant, s: RelayState, ev: Json) {
    CompatibleReading(s, ReadEvent(v, ev))
  }

  /** Every text of the run meets a `lastText` it is compatible with. */
  predicate CompatibleRun(v: Variant, s: RelayState, evs: seq<Json>) {
    forall j :: 0 <= j < |evs| ==> CompatibleText(v, Run(v, s, evs[..j]), evs[j])
  }

  lemma SyncedDeltas(s: RelayState, r: Reading)
    ensures Deltas(Synced(s, r).out) == Deltas(s.out) && Synced(s, r).lastText == s.lastText
  {
    if SyncConversation(s, r.conversationId) != s {
      DeltasSnoc(s.out, MetaConversation(r.conversationId.value));
    }
  }

  lemma ApplyTextDeltas(s: RelayState, t: string)
    requires Deltas(s.out) == s.lastText && Reconcile.Compatible(s.lastText, t)
    ensures Deltas(ApplyText(s, t).out) == ApplyText(s, t).lastText
  {
    var r := Reconcile.Reconcile(s.lastText, t);
    Reconcile.CompatibleStepSendsGrowth(s.lastText, t);
    if r.delta.Some? {
      DeltasSnoc(s.out, Delta(r.delta.value));
    } else {
      assert s.out + [] == s.out;
    }
  }

  lemma ApplyDeltas(s: RelayState, r: Reading)
    requires Deltas(s.out) == s.lastText
    requires CompatibleReading(s, r)
    ensures Deltas(Apply(s, r).out) == Apply(s, r).lastText
  {
    if s.ending.Open? {
      var s1 := Synced(s, r);
      SyncedDeltas(s, r);
      match r.error
      case Some(m) =>
        DeltasSnoc(s1.out, ErrorOut(m));
      case None =>
        if r.text.Some? {
          ApplyTextDeltas(s1, r.text.value);
        }
    }
  }

  /** When every snapshot extends the previous text or starts differently from it, the deltas the
      client receives concatenate to `lastText` (and so to `finalText`). */
  lemma {:induction false} CompatibleRunDeltas(v: Variant, s: RelayState, evs: seq<Json>)
    requires Deltas(s.out) == s.lastText
    requires CompatibleRun(v, s, evs)
    ensures Deltas(Run(v, s, evs).out) == Run(v, s, evs).lastText
    decreases |evs|
  {
    if evs != [] {
      var n := |evs|;
      var prev := evs[..n - 1];
      assert CompatibleRun(v, s, prev) by {
        forall j | 0 <= j < |prev|
          ensures CompatibleText(v, Run(v, s, prev[..j]), prev[j])
        {
          assert prev[..j] == evs[..j];
          assert prev[j] == evs[j];
        }
      }
      CompatibleRunDeltas(v, s, prev);
      assert CompatibleText(v, Run(v, s, evs[..n - 1]), evs[n - 1]);
      ApplyDeltas(Run(v, s, prev), ReadEvent(v, evs[n - 1]));
    }
  }

  /** The loop over an upstream response. `parse` is `JSON.parse`; the loop owns the read buffer,
      `lastText`, `finalText` and the conversation's two upstream ids, and enqueues events for the
      client. */
  class RelayLoop {
    const variant: Variant
    const parse: string -> Option<Json>
    var conversationId: Option<Json>
    var historyId: Option<Json>
    var changes: nat
    var buffer: string
    var lastText: string
    var finalText: string
    var out: seq<Out>
    var ending: Ending

    function State(): RelayState
      reads this
    {
      RelayState(conversationId, historyId, changes, lastText, finalText, out, ending)
    }

    constructor(variant: Variant, parse: string -> Option<Json>, conversationId: Option<Json>,
                historyId: Option<Json>, initial: seq<Out>)
      ensures this.variant == variant && this.parse == parse
      ensures State() == Start(conversationId, historyId, initial) && buffer == ""
    {
      this.variant := variant;
      this.parse := parse;
      this.conversationId := conversationId;
      this.historyId := historyId;
      changes := 0;
      buffer := "";
      lastText := "";
      finalText := "";
      out := initial;
      ending := Open;
    }

    /** The body of the `for (const ev of events)` loop: read the event, then act on it. */
    method HandleEvent(ev: Json)
      requires ending.Open?
      modifies this
      ensures State() == Step(variant, old(State()), ev)
      ensures buffer == old(buffer)
    {
      var status := Status(ev);
      var msg := LastErrorMsg(ev);
      var code := LastErrorCode(ev);
      var isError := status == Some(JStr("error")) || msg != "" || code != "";
      var m := if msg != "" then msg else if code != "" then code else variant.errorFallback;
      var r := Reading(ConversationId(ev), HistoryId(ev), if isError then Some(m) else None,
                       ExtractText(ev, variant.decode), status == Some(JStr("finish")));
      assert r == ReadEvent(variant, ev);
      Consume(r);
    }

    /** The id sync at the top of the loop body. */
    method SyncIds(c: Option<Json>, h: Option<Json>)
      modifies this
      ensures State() == SyncHistory(SyncConversation(old(State()), c), h)
      ensures buffer == old(buffer)
    {
      if Truthy(c) && !StrictEquals(conversationId, c) {
        conversationId := c;
        changes := changes + 1;
        out := out + [MetaConversation(c.value)];
      }
      if Truthy(h) && !StrictEquals(historyId, h) {
        historyId := h;
      }
    }

    /** The rest of the loop body: sync the ids, stop on an error, reconcile the text, stop on
        `finish`. */
    method Consume(r: Reading)
      requires ending.Open?
      modifies this
      ensures State() == Apply(old(State()), r)
      ensures buffer == old(buffer)
    {
      SyncIds(r.conversationId, r.historyId);
      ghost var s1 := State();
      if r.error.Some? {
        out := out + [ErrorOut(r.error.value)];
        ending := Failed(r.error.value);
        return;
      }
      if r.text.Some? {
        var delta, newLast := Reconcile.ReconcileStep(lastText, r.text.value);
        if delta.Some? {
          out := out + [Delta(delta.value)];
        } else {
          assert out == out + [];
        }
        lastText := newLast;
        finalText := lastText;
        assert State() == ApplyText(s1, r.text.value);
      }
      if r.finish {
        ending := Finished;
      }
    }

    /** One read: append the chunk, cut the buffer at its last blank line, and handle the ready
      part's events until the loop stops. */
    method Read(chunk: string)
      requires ending.Open?
      modifies this
      ensures buffer == Framing.Frame(old(buffer) + chunk).1
      ensures State() == Run(variant, old(State()), Framing.ReadyEvents(Framing.LineFn(parse, Framing.Drop), old(buffer) + chunk))
    {
      ghost var s0 := State();
      buffer := buffer + chunk;
      var k := Strings.LastDoubleNewline(buffer);
      if k == -1 {
        return;
      }
      var ready := buffer[..k];
      buffer := buffer[k + 2..];
      var events := Framing.ParseDataLines(parse, Framing.Drop, ready);
      var j := 0;
      while j < |events| && ending.Open?
        invariant 0 <= j <= |events|
        invariant State() == Run(variant, s0, events[..j])
        invariant buffer == Framing.Frame(old(buffer) + chunk).1
      {
        RunOne(variant, s0, events, j);
        HandleEvent(events[j]);
        j := j + 1;
      }
      if j < |events| {
        RunPrefixStops(variant, s0, events, j);
      } else {
        assert events[..j] == events;
      }
    }

    /** The `while (true)` read loop over the upstream chunks, ending when the reader is done or
        an event stopped it. Its effect depends only on the concatenated input: the framed events
        of that text, handled in order. */
    method Pump(chunks: seq<string>)
      requires ending.Open? && buffer == ""
      modifies this
      ensures State() == Run(variant, old(State()), Framing.FramedEvents(Framing.LineFn(parse, Framing.Drop), Strings.Concat(chunks)))
    {
      ghost var s0 := State();
      ghost var f := Framing.LineFn(parse, Framing.Drop);
      Framing.LineFnSilentOnBlank(parse, Framing.Drop);
      var i := 0;
      while i < |chunks| && ending.Open?
        invariant 0 <= i <= |chunks|
        invariant buffer == Framing.Buffered(chunks[..i])
        invariant State() == Run(variant, s0, Framing.FedEvents(f, chunks[..i]))
      {
        Framing.FedStep(f, chunks, i);
        ghost var before := Framing.FedEvents(f, chunks[..i]);
        Read(chunks[i]);
        RunAppend(variant, s0, before, Framing.ReadyEvents(f, Framing.Buffered(chunks[..i]) + chunks[i]));
        i := i + 1;
      }
      if i < |chunks| {
        Framing.FedPrefix(f, chunks, i);
        var all := Framing.FedEvents(f, chunks);
        assert Framing.FedEvents(f, chunks[..i]) == all[..|Framing.FedEvents(f, chunks[..i])|];
        RunPrefixStops(variant, s0, all, |Framing.FedEvents(f, chunks[..i])|);
      } else {
        assert chunks[..i] == chunks;
      }
      Framing.FedIsFramed(f, chunks);
    }
  }
}
