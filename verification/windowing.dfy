/**
 * Sliding-window splitting of the document's subword sequence into doc
 * spans of at most `maxTokensForDoc` subwords, advancing by `docStride`.
 */
module Windowing {
  import opened Types

  /**
   * The windowing loop ends exactly when this holds: an empty document
   * needs nothing; otherwise the window must be non-empty, and a document
   * longer than one window also needs a positive stride.
   */
  predicate WindowingTerminates(n: int, maxTokensForDoc: int, docStride: int) {
    n > 0 ==> maxTokensForDoc > 0 && (n <= maxTokensForDoc || docStride > 0)
  }

  function SpanEnd(span: DocSpan): nat {
    span.start + span.length
  }

  /** Subword position `p` lies inside the span. */
  predicate Covers(span: DocSpan, p: int) {
    span.start <= p < SpanEnd(span)
  }

  /** The spans the loop appends from offset `start` onwards, over `n` subwords. */
  function SpansFrom(start: nat, n: nat, maxTokensForDoc: int, docStride: int): (spans: seq<DocSpan>)
    requires start < n ==> maxTokensForDoc > 0 && (n - start <= maxTokensForDoc || docStride > 0)
    decreases n - start
    ensures start >= n ==> spans == []
    ensures start < n ==> |spans| > 0 && spans[0].start == start && SpanEnd(spans[|spans| - 1]) == n
    ensures forall i :: 0 <= i < |spans| ==>
      && 0 < spans[i].length <= maxTokensForDoc
      && start <= spans[i].start
      && SpanEnd(spans[i]) <= n
  {
    if start >= n then []
    else
      var length := if n - start > maxTokensForDoc then maxTokensForDoc else n - start;
      var span := DocSpan(start, length);
      if start + length == n then [span]
      else [span] + SpansFrom(start + Min(length, docStride), n, maxTokensForDoc, docStride)
  }

  /** The doc spans of a document of `n` subwords. */
  function DocSpans(n: nat, maxTokensForDoc: int, docStride: int): (spans: seq<DocSpan>)
    requires WindowingTerminates(n, maxTokensForDoc, docStride)
    ensures n == 0 <==> spans == []
    ensures n > 0 ==> spans[0].start == 0 && SpanEnd(spans[|spans| - 1]) == n
    ensures forall i :: 0 <= i < |spans| ==>
      0 < spans[i].length <= maxTokensForDoc && SpanEnd(spans[i]) <= n
  {
    SpansFrom(0, n, maxTokensForDoc, docStride)
  }

  /** Span starts are strictly increasing. */
  predicate StartsIncreasing(spans: seq<DocSpan>) {
    forall i, j :: 0 <= i < j < |spans| ==> spans[i].start < spans[j].start
  }

  /** Each span starts no later than the previous one ends. */
  predicate NoGaps(spans: seq<DocSpan>) {
    forall i :: 0 <= i < |spans| - 1 ==> spans[i + 1].start <= SpanEnd(spans[i])
  }

  /** Each window starts strictly after the previous one. */
  lemma {:induction false} SpansFromIncrease(start: nat, n: nat, maxTokensForDoc: int, docStride: int)
    requires start < n ==> maxTokensForDoc > 0 && (n - start <= maxTokensForDoc || docStride > 0)
    ensures StartsIncreasing(SpansFrom(start, n, maxTokensForDoc, docStride))
    decreases n - start
  {
    var spans := SpansFrom(start, n, maxTokensForDoc, docStride);
    if start < n && |spans| > 1 {
      var next := start + Min(spans[0].length, docStride);
      var rest := SpansFrom(next, n, maxTokensForDoc, docStride);
      SpansFromIncrease(next, n, maxTokensForDoc, docStride);
      assert spans == [spans[0]] + rest;
      assert start < next;
      forall i, j | 0 <= i < j < |spans|
        ensures spans[i].start < spans[j].start
      {
        assert spans[j] == rest[j - 1];
        if i > 0 {
          assert spans[i] == rest[i - 1];
        }
      }
    }
  }

  /** The next window starts inside or right after the previous one. */
  lemma {:induction false} SpansFromNoGaps(start: nat, n: nat, maxTokensForDoc: int, docStride: int)
    requires start < n ==> maxTokensForDoc > 0 && (n - start <= maxTokensForDoc || docStride > 0)
    ensures NoGaps(SpansFrom(start, n, maxTokensForDoc, docStride))
    decreases n - start
  {
    var spans := SpansFrom(start, n, maxTokensForDoc, docStride);
    if start < n && |spans| > 1 {
      var next := start + Min(spans[0].length, docStride);
      var rest := SpansFrom(next, n, maxTokensForDoc, docStride);
      SpansFromNoGaps(next, n, maxTokensForDoc, docStride);
      assert spans == [spans[0]] + rest;
      forall i | 0 <= i < |spans| - 1
        ensures spans[i + 1].start <= SpanEnd(spans[i])
      {
        assert spans[i + 1] == rest[i];
        if i > 0 {
          assert spans[i] == rest[i - 1];
        }
      }
    }
  }

  /** The start offsets of the doc spans are strictly increasing and leave no gap. */
  lemma StartsIncrease(n: nat, maxTokensForDoc: int, docStride: int)
    requires WindowingTerminates(n, maxTokensForDoc, docStride)
    ensures StartsIncreasing(DocSpans(n, maxTokensForDoc, docStride))
    ensures NoGaps(DocSpans(n, maxTokensForDoc, docStride))
  {
    SpansFromIncrease(0, n, maxTokensForDoc, docStride);
    SpansFromNoGaps(0, n, maxTokensForDoc, docStride);
  }

  /**
   * The loop yields more than one span exactly when the document does not
   * fit in one window.
   */
  lemma MultipleSpansIff(n: nat, maxTokensForDoc: int, docStride: int)
    requires WindowingTerminates(n, maxTokensForDoc, docStride)
    ensures |DocSpans(n, maxTokensForDoc, docStride)| > 1 <==> 0 < n && maxTokensForDoc < n
  {
    var spans := DocSpans(n, maxTokensForDoc, docStride);
    if 0 < n && maxTokensForDoc < n {
      var rest := SpansFrom(Min(maxTokensForDoc, docStride), n, maxTokensForDoc, docStride);
      assert spans == [DocSpan(0, maxTokensForDoc)] + rest;
    }
  }

  /** A document that fits in one window gets exactly the one span covering all of it. */
  lemma SingleSpan(n: nat, maxTokensForDoc: int, docStride: int)
    requires 0 < n <= maxTokensForDoc
    ensures DocSpans(n, maxTokensForDoc, docStride) == [DocSpan(0, n)]
  {
  }

  /** Consecutive spans leave no gap, so every subword is inside some span. */
  lemma {:induction false} SpansCoverFrom(start: nat, n: nat, maxTokensForDoc: int, docStride: int, p: int)
    requires start < n ==> maxTokensForDoc > 0 && (n - start <= maxTokensForDoc || docStride > 0)
    requires start <= p < n
    ensures exists i :: (0 <= i < |SpansFrom(start, n, maxTokensForDoc, docStride)|
      && Covers(SpansFrom(start, n, maxTokensForDoc, docStride)[i], p))
    decreases n - start
  {
    var spans := SpansFrom(start, n, maxTokensForDoc, docStride);
    if !Covers(spans[0], p) {
      var length := spans[0].length;
      var next := start + Min(length, docStride);
      SpansCoverFrom(next, n, maxTokensForDoc, docStride, p);
      var i :| 0 <= i < |SpansFrom(next, n, maxTokensForDoc, docStride)|
        && Covers(SpansFrom(next, n, maxTokensForDoc, docStride)[i], p);
      assert spans[i + 1] == SpansFrom(next, n, maxTokensForDoc, docStride)[i];
    }
  }

  lemma SpansCover(n: nat, maxTokensForDoc: int, docStride: int, p: int)
    requires WindowingTerminates(n, maxTokensForDoc, docStride)
    requires 0 <= p < n
    ensures exists i :: (0 <= i < |DocSpans(n, maxTokensForDoc, docStride)|
      && Covers(DocSpans(n, maxTokensForDoc, docStride)[i], p))
  {
    var spans := DocSpans(n, maxTokensForDoc, docStride);
    assert spans == SpansFrom(0, n, maxTokensForDoc, docStride);
    SpansCoverFrom(0, n, maxTokensForDoc, docStride, p);
    var i :| 0 <= i < |spans| && Covers(spans[i], p);
  }
}
