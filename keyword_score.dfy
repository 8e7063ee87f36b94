/** The keyword-coverage score: how many of eight history-taking keywords the conversation's
    messages mention, as a percentage rounded half up. The score relay falls back to it
    (`fallbackKeywordScore`) and `scores/generate` computes it directly. */
module KeywordScore {
  import opened Wrappers
  import Strings
  import Seqs
  import Records
  import ScoreSummary

  /** `scoringKeywords`. */
  const Keywords: seq<string> := ["持续时间", "严重程度", "伴随症状", "既往史", "用药", "过敏", "体温", "疼痛评分"]

  /** `conv.messages.map(m => m.text).join(' ')`. */
  function Transcript(ms: seq<Records.Message>): string {
    if ms == [] then ""
    else if |ms| == 1 then ms[0].text
    else Transcript(ms[..|ms| - 1]) + " " + ms[|ms| - 1].text
  }

  /** `scoringKeywords.filter(k => text.includes(k)).length`. */
  function Covered(text: string): (covered: nat)
    ensures covered <= |Keywords|
  {
    |Seqs.Filter(Keywords, (k: string) => Strings.Contains(text, k))|
  }

  /** `Math.round((covered / scoringKeywords.length) * 100)`. The quotient and product are exact
      for these values, so rounding half up is all that remains. */
  function Percent(covered: nat): int {
    ScoreSummary.Round(covered as real / |Keywords| as real * 100.0)
  }

  /** The score is a percentage: 0 for no keyword, 100 for all eight, and it never falls when
      more keywords are covered. */
  lemma PercentRange(covered: nat, more: nat)
    requires covered <= more <= |Keywords|
    ensures 0 <= Percent(covered) <= Percent(more) <= 100
    ensures Percent(0) == 0 && Percent(|Keywords|) == 100
  {
    var x := covered as real / 8.0 * 100.0;
    var y := more as real / 8.0 * 100.0;
    assert x == covered as real * 12.5;
    assert y == more as real * 12.5;
    ScoreSummary.RoundBounds(x);
    ScoreSummary.RoundBounds(y);
    ScoreSummary.RoundWhole(0);
    ScoreSummary.RoundWhole(100);
    assert 8 as real / 8.0 * 100.0 == 100 as real;
  }

  /** The nine scores the rule can give. */
  lemma PercentTable(covered: nat)
    requires covered <= |Keywords|
    ensures Percent(covered) == [0, 13, 25, 38, 50, 63, 75, 88, 100][covered]
  {
    assert 1 as real / 8.0 * 100.0 == 12.5 && (12.5 + 0.5).Floor == 13;
    assert 3 as real / 8.0 * 100.0 == 37.5 && (37.5 + 0.5).Floor == 38;
    assert 5 as real / 8.0 * 100.0 == 62.5 && (62.5 + 0.5).Floor == 63;
    assert 7 as real / 8.0 * 100.0 == 87.5 && (87.5 + 0.5).Floor == 88;
    ScoreSummary.RoundWhole(0);
    ScoreSummary.RoundWhole(25);
    ScoreSummary.RoundWhole(50);
    ScoreSummary.RoundWhole(75);
    ScoreSummary.RoundWhole(100);
    assert 2 as real / 8.0 * 100.0 == 25 as real;
    assert 4 as real / 8.0 * 100.0 == 50 as real;
    assert 6 as real / 8.0 * 100.0 == 75 as real;
    assert 8 as real / 8.0 * 100.0 == 100 as real;
  }

  /** The transcript of a conversation begins with the transcript of any earlier state of it. */
  lemma {:induction false} TranscriptPrefix(ms: seq<Records.Message>, more: seq<Records.Message>)
    ensures Strings.StartsWith(Transcript(ms + more), Transcript(ms))
    decreases |more|
  {
    if more == [] {
      assert ms + more == ms;
    } else {
      var all := ms + more;
      var n := |all|;
      assert all[..n - 1] == ms + more[..|more| - 1];
      TranscriptPrefix(ms, more[..|more| - 1]);
      if ms != [] {
        var prev := Transcript(all[..n - 1]);
        assert Transcript(all) == prev + " " + all[n - 1].text;
        assert Transcript(all)[..|Transcript(ms)|] == prev[..|Transcript(ms)|];
      }
    }
  }

  /** Adding messages never uncovers a keyword, so it never lowers the score. */
  lemma CoverageGrows(ms: seq<Records.Message>, more: seq<Records.Message>)
    ensures Covered(Transcript(ms)) <= Covered(Transcript(ms + more))
    ensures Percent(Covered(Transcript(ms))) <= Percent(Covered(Transcript(ms + more)))
  {
    var t, u := Transcript(ms), Transcript(ms + more);
    TranscriptPrefix(ms, more);
    assert u == t + u[|t|..];
    forall k | 0 <= k < |Keywords| && Strings.Contains(t, Keywords[k])
      ensures Strings.Contains(u, Keywords[k])
    {
      Strings.ContainsExtended(t, u[|t|..], Keywords[k]);
    }
    Seqs.FilterMono(Keywords, (k: string) => Strings.Contains(t, k), (k: string) => Strings.Contains(u, k));
    PercentRange(Covered(t), Covered(u));
  }

  /** A text that mentions every keyword covers all eight; one that mentions none covers none. */
  lemma CoveredExtremes(text: string)
    ensures (forall k :: 0 <= k < |Keywords| ==> Strings.Contains(text, Keywords[k])) ==> Covered(text) == |Keywords|
    ensures (forall k :: 0 <= k < |Keywords| ==> !Strings.Contains(text, Keywords[k])) ==> Covered(text) == 0
  {
    var p := (k: string) => Strings.Contains(text, k);
    if forall k :: 0 <= k < |Keywords| ==> Strings.Contains(text, Keywords[k]) {
      Seqs.FilterAll(Keywords, p);
    }
    if forall k :: 0 <= k < |Keywords| ==> !Strings.Contains(text, Keywords[k]) {
      Seqs.FilterMono(Keywords, p, (k: string) => false);
      NoneKept(Keywords);
    }
  }

  lemma {:induction false} NoneKept(s: seq<string>)
    ensures Seqs.Filter(s, (k: string) => false) == []
  {
    if s != [] {
      NoneKept(s[1..]);
    }
  }

  /** `fallbackKeywordScore({ conv, sid, convId, scoreId, now })`. */
  function FallbackRecord(conv: Records.Conversation, sid: string, convId: string, scoreId: string, now: int)
    : (r: Records.ScoreRecord)
    ensures r.KeywordScore? && r.mode == Some("keyword-mock") && r.total == 8
    ensures r.covered == Covered(Transcript(conv.messages)) <= 8 && r.score == Percent(r.covered)
    ensures 0 <= r.score <= 100
    ensures r.id == scoreId && r.userId == sid && r.convId == convId && r.ts == now
  {
    var covered := Covered(Transcript(conv.messages));
    PercentRange(covered, covered);
    Records.KeywordScore(scoreId, sid, convId, Some("keyword-mock"), Percent(covered), covered, |Keywords|, now)
  }
}
