/** The delta reconciler of both relays: the upstream sends either cumulative snapshots or
    increments of the reply text, and each new text is compared with the previous one through their
    longest common prefix to decide what the client receives. */
module Reconcile {
  import opened Wrappers
  import Strings

  /** The length of the longest common prefix of `a` and `b`. */
  function Lcp(a: string, b: string): (n: nat)
    ensures n <= |a| && n <= |b|
    ensures a[..n] == b[..n]
    ensures n < |a| && n < |b| ==> a[n] != b[n]
    decreases |a|
  {
    if a == [] || b == [] || a[0] != b[0] then 0
    else
      var m := Lcp(a[1..], b[1..]);
      assert a[..m + 1] == [a[0]] + a[1..][..m];
      assert b[..m + 1] == [b[0]] + b[1..][..m];
      1 + m
  }

  /** Any length with the three properties of `Lcp` is `Lcp`: the contract pins the function down. */
  lemma LcpUnique(a: string, b: string, n: nat)
    requires n <= |a| && n <= |b| && a[..n] == b[..n]
    requires n < |a| && n < |b| ==> a[n] != b[n]
    ensures n == Lcp(a, b)
  {
  }

  /** `longestCommonPrefixLen`: 0 when either string is empty, otherwise the while loop that
      advances over equal characters. */
  method LongestCommonPrefixLen(a: string, b: string) returns (i: nat)
    ensures i == Lcp(a, b)
    ensures a == [] || b == [] ==> i == 0
  {
    if a == [] || b == [] {
      return 0;
    }
    var max := if |a| < |b| then |a| else |b|;
    i := 0;
    while i < max && a[i] == b[i]
      invariant i <= max
      invariant a[..i] == b[..i]
    {
      assert a[..i + 1] == a[..i] + [a[i]];
      assert b[..i + 1] == b[..i] + [b[i]];
      i := i + 1;
    }
    LcpUnique(a, b, i);
  }

  /** What one new text does: the delta sent to the client, if any, and the new `lastText`. */
  datatype Reconciled = Reconciled(delta: Option<string>, lastText: string)

  /** The reconciliation rule for a new text against the previous `lastText`. */
  function Reconcile(lastText: string, text: string): Reconciled {
    if lastText == [] then Reconciled(Some(text), text)
    else
      var n := Lcp(lastText, text);
      if n > 0 then Reconciled(if text[n..] != [] then Some(text[n..]) else None, text)
      else if Strings.StartsWith(lastText, text) then Reconciled(None, lastText)
      else Reconciled(Some(text), lastText + text)
  }

  /** The reconciliation step as the relays run it, with the prefix length from the loop. */
  method ReconcileStep(lastText: string, text: string) returns (delta: Option<string>, newLast: string)
    ensures Reconciled(delta, newLast) == Reconcile(lastText, text)
  {
    if lastText == [] {
      delta, newLast := Some(text), text;
    } else {
      var lcp := LongestCommonPrefixLen(lastText, text);
      if lcp > 0 {
        var d := text[lcp..];
        delta := if d != [] then Some(d) else None;
        newLast := text;
      } else if Strings.StartsWith(lastText, text) {
        delta, newLast := None, lastText;
      } else {
        delta, newLast := Some(text), lastText + text;
      }
    }
  }

  /** The text a reconciliation sends: its delta, or nothing. */
  function Sent(r: Reconciled): string {
    if r.delta.Some? then r.delta.value else ""
  }

  /** The first text is sent whole. */
  lemma FirstTextSentWhole(text: string)
    ensures Reconcile("", text) == Reconciled(Some(text), text)
  {
  }

  /** A snapshot that shares a first character with `lastText` replaces it, and what is sent is the
      snapshot beyond the common prefix, if anything is left. */
  lemma SharedPrefixReplaces(lastText: string, text: string)
    requires lastText != [] && Lcp(lastText, text) > 0
    ensures Reconcile(lastText, text).lastText == text
    ensures var n := Lcp(lastText, text);
            Reconcile(lastText, text).delta == if n < |text| then Some(text[n..]) else None
  {
  }

  /** A text that shares no first character with `lastText` is sent whole and appended. */
  lemma DisjointAppends(lastText: string, text: string)
    requires lastText != [] && text != [] && text[0] != lastText[0]
    ensures Reconcile(lastText, text) == Reconciled(Some(text), lastText + text)
  {
  }

  /** The branch that ignores a shorter snapshot is dead for non-empty texts: a non-empty `text`
      that `lastText` starts with shares its first character. */
  lemma IgnoreBranchUnreachable(lastText: string, text: string)
    requires lastText != [] && text != []
    requires Lcp(lastText, text) == 0
    ensures !Strings.StartsWith(lastText, text)
  {
  }

  /** A snapshot is compatible with `lastText` when it extends it or, being non-empty, starts
      differently. */
  predicate Compatible(lastText: string, text: string) {
    text != [] && (Strings.StartsWith(text, lastText) || lastText == [] || text[0] != lastText[0])
  }

  /** On a compatible text, what is sent is exactly what `lastText` grows by. */
  lemma CompatibleStepSendsGrowth(lastText: string, text: string)
    requires Compatible(lastText, text)
    ensures lastText + Sent(Reconcile(lastText, text)) == Reconcile(lastText, text).lastText
  {
    if lastText != [] {
      if Strings.StartsWith(text, lastText) {
        LcpUnique(lastText, text, |lastText|);
        assert text == lastText + text[|lastText|..];
      } else {
        DisjointAppends(lastText, text);
      }
    }
  }

  /** `lastText` after a run of texts, starting from "". */
  function LastAfter(texts: seq<string>): string {
    if texts == [] then "" else Reconcile(LastAfter(texts[..|texts| - 1]), texts[|texts| - 1]).lastText
  }

  /** Everything sent during a run of texts, in order. */
  function SentAfter(texts: seq<string>): string {
    if texts == [] then ""
    else
      var prev := texts[..|texts| - 1];
      SentAfter(prev) + Sent(Reconcile(LastAfter(prev), texts[|texts| - 1]))
  }

  /** Every text of the run is compatible with the `lastText` it meets. */
  predicate CompatibleRun(texts: seq<string>) {
    forall i :: 0 <= i < |texts| ==> Compatible(LastAfter(texts[..i]), texts[i])
  }

  /** When every snapshot extends the previous text or starts differently from it, the deltas sent
      concatenate to `lastText`. */
  lemma {:induction false} CompatibleRunSendsLastText(texts: seq<string>)
    requires CompatibleRun(texts)
    ensures SentAfter(texts) == LastAfter(texts)
  {
    if texts != [] {
      var n := |texts|;
      var prev := texts[..n - 1];
      forall i | 0 <= i < |prev|
        ensures Compatible(LastAfter(prev[..i]), prev[i])
      {
        assert prev[..i] == texts[..i];
        assert Compatible(LastAfter(texts[..i]), texts[i]);
      }
      CompatibleRunSendsLastText(prev);
      assert Compatible(LastAfter(texts[..n - 1]), texts[n - 1]);
      CompatibleStepSendsGrowth(LastAfter(prev), texts[n - 1]);
    }
  }

  /** A shrinking snapshot breaks that: "你好" then "你" sends "你好" but leaves `lastText` = "你". */
  lemma ShrinkingSnapshotExample()
    ensures LastAfter(["你好", "你"]) == "你"
    ensures SentAfter(["你好", "你"]) == "你好"
    ensures SentAfter(["你好", "你"]) != LastAfter(["你好", "你"])
  {
    var texts := ["你好", "你"];
    assert texts[..1] == ["你好"];
    assert texts[..1][..0] == [];
    assert LastAfter(texts[..1]) == "你好";
    assert Lcp("你好", "你") == 1 by {
      LcpUnique("你好", "你", 1);
    }
  }
}
