/**
 * The maximum-context rule: of all doc spans that contain a subword
 * position, the one that gives it the most balanced context owns it.
 */
module MaxContext {
  import opened Types
  import opened Windowing

  /** Context on each side of `p` inside the span (the span's last index is its end). */
  function LeftContext(span: DocSpan, p: int): int {
    p - span.start
  }

  function RightContext(span: DocSpan, p: int): int {
    span.start + span.length - 1 - p
  }

  /** The score `_check_is_max_context` computes, read as an exact real: min(left, right) + 0.01 * length. */
  function RealScore(span: DocSpan, p: int): real {
    Min(LeftContext(span, p), RightContext(span, p)) as real + 0.01 * span.length as real
  }

  /** The same score scaled by 100, so that it is an integer. */
  function Score(span: DocSpan, p: int): int {
    100 * Min(LeftContext(span, p), RightContext(span, p)) + span.length
  }

  /** Scaling by 100 preserves every comparison between scores. */
  lemma ScoreOrderAgrees(a: DocSpan, b: DocSpan, p: int)
    ensures Score(a, p) > Score(b, p) <==> RealScore(a, p) > RealScore(b, p)
    ensures Score(a, p) == Score(b, p) <==> RealScore(a, p) == RealScore(b, p)
  {
    assert Score(a, p) as real == 100.0 * RealScore(a, p);
    assert Score(b, p) as real == 100.0 * RealScore(b, p);
  }

  /** The loop's running best: nothing seen yet, or the best index and its score. */
  datatype Best = NoBest | Best(index: nat, score: int)

  /**
   * The running best after scanning `spans` from the left: a span that
   * contains `p` replaces the best only when its score is strictly greater.
   */
  function BestSpan(spans: seq<DocSpan>, p: int): Best
    decreases |spans|
  {
    if |spans| == 0 then NoBest
    else
      var k := |spans| - 1;
      var prev := BestSpan(spans[..k], p);
      if !Covers(spans[k], p) then prev
      else if prev.NoBest? || Score(spans[k], p) > prev.score then Best(k, Score(spans[k], p))
      else prev
  }

  /** Span `curSpanIndex` is the winner for position `p`. */
  predicate IsMaxContext(spans: seq<DocSpan>, curSpanIndex: int, p: int) {
    var b := BestSpan(spans, p);
    b.Best? && b.index == curSpanIndex
  }

  /**
   * Reference: span `i` contains `p`, no containing span scores higher, and
   * every containing span before it scores strictly lower.
   */
  predicate IsFirstMaximizer(spans: seq<DocSpan>, i: int, p: int) {
    && 0 <= i < |spans|
    && Covers(spans[i], p)
    && (forall j :: 0 <= j < |spans| && Covers(spans[j], p) ==>
          RealScore(spans[j], p) <= RealScore(spans[i], p))
    && (forall j :: 0 <= j < i && Covers(spans[j], p) ==>
          RealScore(spans[j], p) < RealScore(spans[i], p))
  }

  lemma AllScoresAgree(spans: seq<DocSpan>, p: int)
    ensures forall i, j :: 0 <= i < |spans| && 0 <= j < |spans| ==>
      (Score(spans[i], p) < Score(spans[j], p) <==> RealScore(spans[i], p) < RealScore(spans[j], p))
      && (Score(spans[i], p) <= Score(spans[j], p) <==> RealScore(spans[i], p) <= RealScore(spans[j], p))
  {
    forall i, j | 0 <= i < |spans| && 0 <= j < |spans|
      ensures (Score(spans[i], p) < Score(spans[j], p) <==> RealScore(spans[i], p) < RealScore(spans[j], p))
      ensures (Score(spans[i], p) <= Score(spans[j], p) <==> RealScore(spans[i], p) <= RealScore(spans[j], p))
    {
      ScoreOrderAgrees(spans[j], spans[i], p);
    }
  }

  /**
   * The loop finds no winner exactly when no span contains `p`; otherwise
   * its winner is the first span of greatest score.
   */
  lemma {:induction false} BestSpanIsFirstMaximizer(spans: seq<DocSpan>, p: int)
    ensures BestSpan(spans, p).NoBest? <==> forall j :: 0 <= j < |spans| ==> !Covers(spans[j], p)
    ensures BestSpan(spans, p).Best? ==>
      && IsFirstMaximizer(spans, BestSpan(spans, p).index, p)
      && BestSpan(spans, p).score == Score(spans[BestSpan(spans, p).index], p)
    decreases |spans|
  {
    if |spans| > 0 {
      var k := |spans| - 1;
      var init := spans[..k];
      BestSpanIsFirstMaximizer(init, p);
      AllScoresAgree(spans, p);
      assert forall j :: 0 <= j < k ==> init[j] == spans[j];
    }
  }

  /** At most one span is a first maximizer. */
  lemma FirstMaximizerUnique(spans: seq<DocSpan>, i: int, i': int, p: int)
    requires IsFirstMaximizer(spans, i, p) && IsFirstMaximizer(spans, i', p)
    ensures i == i'
  {
  }

  /**
   * The rule answers yes for span `cur` exactly when `cur` is the first span
   * maximising min(left, right) + 0.01 * length among the spans containing `p`.
   */
  lemma MaxContextIff(spans: seq<DocSpan>, cur: int, p: int)
    ensures IsMaxContext(spans, cur, p) <==> IsFirstMaximizer(spans, cur, p)
  {
    BestSpanIsFirstMaximizer(spans, p);
    var b := BestSpan(spans, p);
    if IsFirstMaximizer(spans, cur, p) {
      assert b.Best?;
      FirstMaximizerUnique(spans, cur, b.index, p);
    }
  }

  /**
   * A position inside at least one span has exactly one owning span; a
   * position inside none is owned by no span.
   */
  lemma ExactlyOneOwner(spans: seq<DocSpan>, p: int)
    ensures (exists j :: 0 <= j < |spans| && Covers(spans[j], p)) ==>
      exists i :: 0 <= i < |spans| && IsMaxContext(spans, i, p)
        && forall i' :: IsMaxContext(spans, i', p) ==> i' == i
    ensures (forall j :: 0 <= j < |spans| ==> !Covers(spans[j], p)) ==>
      forall i :: !IsMaxContext(spans, i, p)
  {
    BestSpanIsFirstMaximizer(spans, p);
    var b := BestSpan(spans, p);
    if b.Best? {
      assert IsMaxContext(spans, b.index, p);
      assert forall i' :: IsMaxContext(spans, i', p) ==> i' == b.index;
    }
  }

  /** A span that does not contain the position never owns it. */
  lemma NotCoveringNotMax(spans: seq<DocSpan>, cur: int, p: int)
    requires 0 <= cur < |spans| && !Covers(spans[cur], p)
    ensures !IsMaxContext(spans, cur, p)
  {
    MaxContextIff(spans, cur, p);
  }

  /**
   * Exact scores can tie: with 119 subwords, a window of 118 and a stride
   * of 101, the doc spans are (0, 118) and (101, 18).
   */
  lemma TieExampleSpans()
    ensures DocSpans(119, 118, 101) == [DocSpan(0, 118), DocSpan(101, 18)]
  {
    assert SpansFrom(101, 119, 118, 101) == [DocSpan(101, 18)];
  }

  /**
   * In those spans, position 115 scores 2 + 0.01 * 118 in the first and
   * 3 + 0.01 * 18 in the second. As exact reals these are equal, so the
   * earlier span keeps the position.
   */
  lemma ExactTieKeepsEarlier()
    ensures RealScore(DocSpan(0, 118), 115) == RealScore(DocSpan(101, 18), 115)
    ensures IsMaxContext([DocSpan(0, 118), DocSpan(101, 18)], 0, 115)
    ensures !IsMaxContext([DocSpan(0, 118), DocSpan(101, 18)], 1, 115)
  {
    var spans := [DocSpan(0, 118), DocSpan(101, 18)];
    assert Score(spans[0], 115) == 318 && Score(spans[1], 115) == 318;
    assert spans[..1] == [DocSpan(0, 118)];
    assert [DocSpan(0, 118)][..0] == [];
    assert BestSpan([DocSpan(0, 118)], 115) == Best(0, 318);
    assert BestSpan(spans, 115) == Best(0, 318);
  }
}
