/**
 * The feature expander: the base sequence `[CLS] doc [SEP] answer [SEP]`
 * padded to the fixed length, and its expansion into one masked training
 * feature per question subword, revealing the real question one token at
 * a time.
 */
module Expansion {
  import opened Types

  /** The padded base sequence of one span and the first generation slot. */
  datatype BaseSequence = BaseSequence(
    tokens: seq<string>,
    inputIds: seq<int>,
    inputMask: seq<int>,
    segmentIds: seq<int>,
    labelPos: nat)

  predicate WellShaped(b: BaseSequence) {
    |b.inputMask| == |b.inputIds| && |b.segmentIds| == |b.inputIds|
  }

  /** Zero-pads `xs` up to `maxSeqLength` entries. */
  function Pad(xs: seq<int>, maxSeqLength: int): (r: seq<int>)
    requires |xs| <= maxSeqLength
    ensures |r| == maxSeqLength
    ensures forall k :: 0 <= k < |xs| ==> r[k] == xs[k]
    ensures forall k :: |xs| <= k < maxSeqLength ==> r[k] == 0
  {
    xs + seq(maxSeqLength - |xs|, _ => 0)
  }

  /**
   * Builds `[CLS] span-subwords [SEP] answer [SEP]` with segment 0 up to the
   * first `[SEP]` and 1 after it, all-ones mask, then zero-pads all three.
   */
  function BuildBase(tok: Tokenizer, allDocTokens: seq<string>, span: DocSpan,
                     answerTokens: seq<string>, maxSeqLength: int): (b: BaseSequence)
    requires span.start + span.length <= |allDocTokens|
    requires span.length + |answerTokens| + 3 <= maxSeqLength
    ensures WellShaped(b) && |b.inputIds| == maxSeqLength
    ensures b.labelPos == |b.tokens| == span.length + |answerTokens| + 3
    ensures b.tokens[0] == ClsToken
    ensures forall k :: 1 <= k <= span.length ==> b.tokens[k] == allDocTokens[span.start + k - 1]
    ensures b.tokens[span.length + 1] == SepToken
    ensures forall k :: span.length + 2 <= k < b.labelPos - 1 ==>
      b.tokens[k] == answerTokens[k - span.length - 2]
    ensures b.tokens[b.labelPos - 1] == SepToken
    ensures forall k :: 0 <= k < maxSeqLength ==>
      b.inputIds[k] == (if k < b.labelPos then tok.tokenId(b.tokens[k]) else 0)
    ensures forall k :: 0 <= k < maxSeqLength ==>
      b.inputMask[k] == (if k < b.labelPos then 1 else 0)
    ensures forall k :: 0 <= k < maxSeqLength ==>
      b.segmentIds[k] == (if span.length + 2 <= k < b.labelPos then 1 else 0)
  {
    var tokens := [ClsToken] + allDocTokens[span.start..span.start + span.length] + [SepToken]
                  + answerTokens + [SepToken];
    var segmentIds := seq(span.length + 2, _ => 0) + seq(|answerTokens| + 1, _ => 1);
    var inputIds := ConvertTokensToIds(tok, tokens);
    var inputMask := seq(|inputIds|, _ => 1);
    BaseSequence(tokens, Pad(inputIds, maxSeqLength), Pad(inputMask, maxSeqLength),
                 Pad(segmentIds, maxSeqLength), |inputIds|)
  }

  /**
   * How many features a target id sequence yields: up to and including the
   * first `[SEP]` id, or all of them when there is none.
   */
  function EmitCount(outputIds: seq<int>): (c: nat)
    ensures c <= |outputIds|
    ensures forall j :: 0 <= j < c - 1 ==> outputIds[j] != SepId
    ensures (exists k :: 0 <= k < |outputIds| && outputIds[k] == SepId) ==>
      c > 0 && outputIds[c - 1] == SepId
    ensures (forall k :: 0 <= k < |outputIds| ==> outputIds[k] != SepId) ==> c == |outputIds|
    decreases |outputIds|
  {
    if |outputIds| == 0 then 0
    else if outputIds[0] == SepId then 1
    else 1 + EmitCount(outputIds[1..])
  }

  /**
   * Reference for feature `i`: the slot `labelPos + i` is masked (id 103,
   * mask 1, segment 2) and is the only labelled position, carrying target
   * `i`; the earlier slots hold the real targets 0..i-1 with mask 1 and
   * segment 2; every other position is the base sequence.
   */
  function StepFeature(b: BaseSequence, outputIds: seq<int>, i: nat): (f: InputFeatures)
    requires WellShaped(b)
    requires i < |outputIds| && b.labelPos + i < |b.inputIds|
    ensures |f.inputIds| == |f.inputMask| == |f.segmentIds| == |f.outputIds| == |b.inputIds|
  {
    var p0 := b.labelPos;
    var m := |b.inputIds|;
    InputFeatures(
      b.tokens,
      seq(m, k requires 0 <= k < m =>
        if k == p0 + i then MaskId
        else if p0 <= k < p0 + i then outputIds[k - p0]
        else b.inputIds[k]),
      seq(m, k requires 0 <= k < m => if p0 <= k <= p0 + i then 1 else b.inputMask[k]),
      seq(m, k requires 0 <= k < m => if p0 <= k <= p0 + i then 2 else b.segmentIds[k]),
      seq(m, k requires 0 <= k < m => if k == p0 + i then outputIds[i] else IgnoreLabel))
  }

  /**
   * Teacher forcing: feature `i + 1` is feature `i` with the masked slot
   * replaced by the real target `i` and the next slot masked.
   */
  lemma NextStepReveals(b: BaseSequence, outputIds: seq<int>, i: nat)
    requires WellShaped(b)
    requires i + 1 < |outputIds| && b.labelPos + i + 1 < |b.inputIds|
    ensures var p := b.labelPos + i;
      var f := StepFeature(b, outputIds, i);
      var g := StepFeature(b, outputIds, i + 1);
      && g.tokens == f.tokens
      && g.inputIds == f.inputIds[p := outputIds[i]][p + 1 := MaskId]
      && g.inputMask == f.inputMask[p + 1 := 1]
      && g.segmentIds == f.segmentIds[p + 1 := 2]
  {
  }

  /** If the first `idx` targets are not `[SEP]` and one is left, it is emitted too. */
  lemma EmitCountBeyond(outputIds: seq<int>, idx: nat)
    requires idx < |outputIds|
    requires forall j :: 0 <= j < idx ==> outputIds[j] != SepId
    ensures idx < EmitCount(outputIds)
    ensures outputIds[idx] == SepId ==> EmitCount(outputIds) == idx + 1
  {
    var c := EmitCount(outputIds);
    if exists k :: 0 <= k < |outputIds| && outputIds[k] == SepId {
      assert outputIds[c - 1] == SepId;
    }
  }

  /**
   * The expansion loop: for each target id, emit a copy of the running
   * sequence with the current slot masked and labelled; stop after `[SEP]`;
   * otherwise write the real target into the running sequence and advance.
   */
  method Expand(b: BaseSequence, outputIds: seq<int>) returns (features: seq<InputFeatures>)
    requires WellShaped(b)
    requires b.labelPos + EmitCount(outputIds) <= |b.inputIds|
    ensures |features| == EmitCount(outputIds)
    ensures forall i :: 0 <= i < |features| ==> features[i] == StepFeature(b, outputIds, i)
  {
    var m := |b.inputIds|;
    var inputIds, inputMask, segmentIds := b.inputIds, b.inputMask, b.segmentIds;
    var labelPos := b.labelPos;
    features := [];
    var idx := 0;
    var stop := false;
    while idx < |outputIds| && !stop
      invariant 0 <= idx <= |outputIds|
      invariant |features| == idx
      invariant idx <= EmitCount(outputIds)
      invariant stop ==> idx == EmitCount(outputIds)
      invariant !stop ==> forall j :: 0 <= j < idx ==> outputIds[j] != SepId
      invariant labelPos == b.labelPos + idx - (if stop then 1 else 0)
      invariant |inputIds| == m && |inputMask| == m && |segmentIds| == m
      invariant forall k :: 0 <= k < m ==>
        inputIds[k] == (if b.labelPos <= k < labelPos then outputIds[k - b.labelPos] else b.inputIds[k])
      invariant forall k :: 0 <= k < m ==>
        inputMask[k] == (if b.labelPos <= k < labelPos then 1 else b.inputMask[k])
      invariant forall k :: 0 <= k < m ==>
        segmentIds[k] == (if b.labelPos <= k < labelPos then 2 else b.segmentIds[k])
      invariant forall i :: 0 <= i < idx ==> features[i] == StepFeature(b, outputIds, i)
    {
      EmitCountBeyond(outputIds, idx);
      var outputId := outputIds[idx];
      var stepIds := inputIds[labelPos := MaskId];
      var stepMask := inputMask[labelPos := 1];
      var stepSeg := segmentIds[labelPos := 2];
      var labelIds := seq(m, _ => IgnoreLabel)[labelPos := outputId];
      var f := InputFeatures(b.tokens, stepIds, stepMask, stepSeg, labelIds);
      assert f == StepFeature(b, outputIds, idx);
      features := features + [f];
      if outputId == SepId {
        stop := true;
      } else {
        inputIds := inputIds[labelPos := outputId];
        inputMask := inputMask[labelPos := 1];
        segmentIds := segmentIds[labelPos := 2];
        labelPos := labelPos + 1;
      }
      idx := idx + 1;
    }
  }
}
