/** Reading one decoded upstream event: the fields the relays look for, each first under
    `result` and then at the top level (`ev?.result?.x ?? ev?.x`), the error test, and the reply
    text. */
module UpstreamEvent {
  import opened Wrappers
  import opened Json
  import Escapes

  /** `ev?.result?.key ?? ev?.key`. */
  function Field(ev: Json, key: string): (r: Option<Json>)
    ensures !IsNullish(Prop(Prop(Some(ev), "result"), key)) ==> r == Prop(Prop(Some(ev), "result"), key)
    ensures IsNullish(Prop(Prop(Some(ev), "result"), key)) ==> r == Prop(Some(ev), key)
  {
    Coalesce(Prop(Prop(Some(ev), "result"), key), Prop(Some(ev), key))
  }

  function Status(ev: Json): Option<Json> { Field(ev, "status") }
  function ConversationId(ev: Json): Option<Json> { Field(ev, "conversation_id") }
  function HistoryId(ev: Json): Option<Json> { Field(ev, "history_id") }

  /** `typeof v?.key === 'string' ? v.key : ''`. */
  function StringField(v: Option<Json>, key: string): (r: string)
    ensures r != "" ==> Prop(v, key) == Some(JStr(r))
  {
    var f := Prop(v, key);
    if f.Some? && f.value.JStr? then f.value.s else ""
  }

  /** `last_error.error_msg` and `last_error.error_code`, or `''` when not strings. */
  function LastErrorMsg(ev: Json): string { StringField(Field(ev, "last_error"), "error_msg") }
  function LastErrorCode(ev: Json): string { StringField(Field(ev, "last_error"), "error_code") }

  /** The event reports an upstream failure: `status === 'error'` or a non-empty error string. */
  predicate IsUpstreamError(ev: Json) {
    Status(ev) == Some(JStr("error")) || LastErrorMsg(ev) != "" || LastErrorCode(ev) != ""
  }

  /** `lastErrorMsg || lastErrorCode || fallback`: the chat relay's fallback is `'error'`, the
      score relay's `'upstream error'`. */
  function ErrorText(ev: Json, fallback: string): (m: string)
    ensures fallback != "" ==> m != ""
    ensures LastErrorMsg(ev) != "" ==> m == LastErrorMsg(ev)
    ensures LastErrorMsg(ev) == "" && LastErrorCode(ev) != "" ==> m == LastErrorCode(ev)
    ensures LastErrorMsg(ev) == "" && LastErrorCode(ev) == "" ==> m == fallback
  {
    if LastErrorMsg(ev) != "" then LastErrorMsg(ev)
    else if LastErrorCode(ev) != "" then LastErrorCode(ev)
    else fallback
  }

  /** `msg?.content` when `msg` is truthy. */
  function Content(ev: Json): Option<Json> {
    var msg := Field(ev, "message");
    if Truthy(msg) then Prop(msg, "content") else None
  }

  /** `content.text` when `content` is a truthy object, `null` otherwise. */
  function ContentText(ev: Json): Option<Json> {
    var content := Content(ev);
    if Truthy(content) && (content.value.JObj? || content.value.JArr?) then Prop(content, "text")
    else Some(JNull)
  }

  /** The reply text an event carries, before any decoding: `content.text` when it is a non-empty
      string, else `content` when it is a non-empty string, else nothing. */
  function RawText(ev: Json): (r: Option<string>)
    ensures r.Some? ==> r.value != ""
    ensures NonEmptyString(ContentText(ev)).Some? ==> r == NonEmptyString(ContentText(ev))
    ensures NonEmptyString(ContentText(ev)).None? ==> r == NonEmptyString(Content(ev))
    ensures !Truthy(Field(ev, "message")) ==> r.None?
  {
    var text := NonEmptyString(ContentText(ev));
    if text.Some? then text else NonEmptyString(Content(ev))
  }

  /** `extractMessageContentText`: the chat relay decodes the text with `decodeEscapedText`
      (`decode` true), the score relay does not. */
  function ExtractText(ev: Json, decode: bool): (r: Option<string>)
    ensures r.Some? ==> r.value != ""
    ensures r.Some? <==> RawText(ev).Some?
    ensures !decode ==> r == RawText(ev)
  {
    match RawText(ev)
    case None => None
    case Some(t) => Some(if decode then Escapes.DecodeEscapedText(t) else t)
  }

  /** An event without backslashes in its text reads the same in both relays. */
  lemma PlainTextSameInBothRelays(ev: Json)
    requires RawText(ev).Some? && Escapes.Backslash !in RawText(ev).value
    ensures ExtractText(ev, true) == ExtractText(ev, false)
  {
    Escapes.NoBackslashUnchanged(RawText(ev).value);
  }

  /** `result.message` hides a top-level `message`: once it is set, the top level is not read. */
  lemma ResultMessageWins(ev: Json, top: Json)
    requires ev.JObj? && "result" in ev.fields && ev.fields["result"].JObj?
    requires "message" in ev.fields["result"].fields && ev.fields["result"].fields["message"] != JNull
    ensures RawText(ev) == RawText(JObj(ev.fields["message" := top]))
  {
    var ev2 := JObj(ev.fields["message" := top]);
    assert Prop(Some(ev2), "result") == Prop(Some(ev), "result");
  }
}
