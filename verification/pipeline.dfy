/**
 * Record-level conversion: tokenize question and answer, reject over-long
 * ones, align and window the document, reject multi-window documents, and
 * expand the single window into its training features.
 */
module Pipeline {
  import opened Types
  import opened Alignment
  import opened Windowing
  import opened Expansion

  function QueryTokens(tok: Tokenizer, d: Data): seq<string> {
    tok.tokenize(d.questionText)
  }

  function AnswerTokens(tok: Tokenizer, d: Data): seq<string> {
    tok.tokenize(d.answersText)
  }

  /** The document's subword sequence. */
  function Subwords(tok: Tokenizer, d: Data): seq<string> {
    Align(tok.tokenize, d.docTokens).allDocTokens
  }

  /** The window size left for the document once `[CLS]`, three `[SEP]`s, answer and question are reserved. */
  function MaxTokensForDoc(cfg: Config, queryTokens: seq<string>, answerTokens: seq<string>): int {
    cfg.maxSeqLength - |answerTokens| - |queryTokens| - 4
  }

  /** Neither the question nor the answer exceeds its configured bound. */
  predicate LengthsOk(cfg: Config, tok: Tokenizer, d: Data) {
    |QueryTokens(tok, d)| <= cfg.maxQueryLength && |AnswerTokens(tok, d)| <= cfg.maxAnswerLength
  }

  /** The record's windowing loop ends (it is only reached when the lengths pass). */
  predicate Terminates(cfg: Config, tok: Tokenizer, d: Data) {
    LengthsOk(cfg, tok, d) ==>
      WindowingTerminates(|Subwords(tok, d)|,
                          MaxTokensForDoc(cfg, QueryTokens(tok, d), AnswerTokens(tok, d)),
                          cfg.docStride)
  }

  /** The ids to generate: the question subwords followed by `[SEP]`. */
  function TargetIds(tok: Tokenizer, queryTokens: seq<string>): seq<int> {
    ConvertTokensToIds(tok, queryTokens + [SepToken])
  }

  /** The features of one window: base sequence, then one feature per emitted target. */
  function SpanFeatures(cfg: Config, tok: Tokenizer, allDocTokens: seq<string>, span: DocSpan,
                        answerTokens: seq<string>, queryTokens: seq<string>): (fs: seq<InputFeatures>)
    requires span.start + span.length <= |allDocTokens|
    requires span.length <= MaxTokensForDoc(cfg, queryTokens, answerTokens)
  {
    var b := BuildBase(tok, allDocTokens, span, answerTokens, cfg.maxSeqLength);
    var out := TargetIds(tok, queryTokens);
    seq(EmitCount(out), i requires 0 <= i < EmitCount(out) => StepFeature(b, out, i))
  }

  /** Converts one record, or says why it is rejected. */
  function ConvertRecord(cfg: Config, tok: Tokenizer, d: Data): Result<seq<InputFeatures>>
    requires Terminates(cfg, tok, d)
  {
    var q := QueryTokens(tok, d);
    var a := AnswerTokens(tok, d);
    if |q| > cfg.maxQueryLength then Err(QueryTooLong)
    else if |a| > cfg.maxAnswerLength then Err(AnswerTooLong)
    else
      var all := Subwords(tok, d);
      var maxTokensForDoc := MaxTokensForDoc(cfg, q, a);
      var spans := DocSpans(|all|, maxTokensForDoc, cfg.docStride);
      MultipleSpansIff(|all|, maxTokensForDoc, cfg.docStride);
      if |spans| > 1 then Err(MultipleSpans)
      else if |spans| == 0 then Ok([])
      else
        SingleSpan(|all|, maxTokensForDoc, cfg.docStride);
        Ok(SpanFeatures(cfg, tok, all, spans[0], a, q))
  }

  /**
   * A record is rejected for an over-long question first, then for an
   * over-long answer, then for a document that needs more than one window;
   * otherwise it is accepted, with no features for an empty document and
   * one feature per emitted target otherwise, each of the fixed length.
   */
  lemma RecordOutcome(cfg: Config, tok: Tokenizer, d: Data)
    requires Terminates(cfg, tok, d)
    ensures ConvertRecord(cfg, tok, d) == Err(QueryTooLong) <==>
      |QueryTokens(tok, d)| > cfg.maxQueryLength
    ensures ConvertRecord(cfg, tok, d) == Err(AnswerTooLong) <==>
      |QueryTokens(tok, d)| <= cfg.maxQueryLength && |AnswerTokens(tok, d)| > cfg.maxAnswerLength
    ensures ConvertRecord(cfg, tok, d) == Err(MultipleSpans) <==>
      && LengthsOk(cfg, tok, d)
      && 0 < |Subwords(tok, d)|
      && MaxTokensForDoc(cfg, QueryTokens(tok, d), AnswerTokens(tok, d)) < |Subwords(tok, d)|
    ensures ConvertRecord(cfg, tok, d).Ok? ==> forall f :: f in ConvertRecord(cfg, tok, d).value ==>
      && |f.inputIds| == cfg.maxSeqLength
      && |f.inputMask| == cfg.maxSeqLength
      && |f.segmentIds| == cfg.maxSeqLength
      && |f.outputIds| == cfg.maxSeqLength
    ensures ConvertRecord(cfg, tok, d).Ok? ==> (|ConvertRecord(cfg, tok, d).value| ==
      if |Subwords(tok, d)| == 0 then 0 else EmitCount(TargetIds(tok, QueryTokens(tok, d))))
  {
    var q := QueryTokens(tok, d);
    var a := AnswerTokens(tok, d);
    if LengthsOk(cfg, tok, d) {
      MultipleSpansIff(|Subwords(tok, d)|, MaxTokensForDoc(cfg, q, a), cfg.docStride);
    }
  }

  /**
   * The sizing of the window leaves room for the whole question: with one
   * window, the last generation slot `labelPos + |question|` is still inside
   * the fixed length, so every slot write is in bounds.
   */
  lemma SingleSpanFits(cfg: Config, tok: Tokenizer, d: Data)
    requires LengthsOk(cfg, tok, d) && Terminates(cfg, tok, d)
    requires |DocSpans(|Subwords(tok, d)|, MaxTokensForDoc(cfg, QueryTokens(tok, d), AnswerTokens(tok, d)),
                       cfg.docStride)| == 1
    ensures var span := DocSpans(|Subwords(tok, d)|,
                                 MaxTokensForDoc(cfg, QueryTokens(tok, d), AnswerTokens(tok, d)),
                                 cfg.docStride)[0];
      span.length + |AnswerTokens(tok, d)| + 3 + |QueryTokens(tok, d)| + 1 <= cfg.maxSeqLength
  {
  }

  /**
   * A configuration whose window budget is positive for the longest allowed
   * question and answer, with a positive stride, never loops forever.
   */
  lemma ValidConfigTerminates(cfg: Config, tok: Tokenizer, d: Data)
    requires cfg.maxSeqLength - cfg.maxQueryLength - cfg.maxAnswerLength - 4 > 0
    requires cfg.docStride > 0
    ensures Terminates(cfg, tok, d)
  {
  }

  /**
   * Exact contents of feature `i` of an accepted, non-empty record, with
   * `n` document subwords and `p0 = n + |answer| + 3`: the tokens are
   * `[CLS] doc [SEP] answer [SEP]`; ids are the base ids, then the real
   * targets 0..i-1, then the mask id at `p0 + i`, then zeros; the mask is 1
   * exactly up to `p0 + i`; segments are 0 over `[CLS] doc [SEP]`, 1 over
   * `answer [SEP]`, 2 over the revealed and current slots, 0 after; the only
   * label is target `i` at `p0 + i`.
   */
  lemma RecordFeatureContents(cfg: Config, tok: Tokenizer, d: Data, i: nat)
    requires Terminates(cfg, tok, d)
    requires ConvertRecord(cfg, tok, d).Ok?
    requires i < |ConvertRecord(cfg, tok, d).value|
    ensures var f := ConvertRecord(cfg, tok, d).value[i];
      var n := |Subwords(tok, d)|;
      var a := AnswerTokens(tok, d);
      var out := TargetIds(tok, QueryTokens(tok, d));
      var p0 := n + |a| + 3;
      && i < |out|
      && p0 + i < cfg.maxSeqLength
      && f.tokens == [ClsToken] + Subwords(tok, d) + [SepToken] + a + [SepToken]
      && |f.inputIds| == |f.inputMask| == |f.segmentIds| == |f.outputIds| == cfg.maxSeqLength
      && (forall k :: 0 <= k < cfg.maxSeqLength ==>
            f.inputIds[k] == (if k < p0 then tok.tokenId(f.tokens[k])
                              else if k < p0 + i then out[k - p0]
                              else if k == p0 + i then MaskId
                              else 0))
      && (forall k :: 0 <= k < cfg.maxSeqLength ==>
            f.inputMask[k] == (if k <= p0 + i then 1 else 0))
      && (forall k :: 0 <= k < cfg.maxSeqLength ==>
            f.segmentIds[k] == (if k < n + 2 then 0
                                else if k < p0 then 1
                                else if k <= p0 + i then 2
                                else 0))
      && (forall k :: 0 <= k < cfg.maxSeqLength ==>
            f.outputIds[k] == (if k == p0 + i then out[i] else IgnoreLabel))
  {
    var q := QueryTokens(tok, d);
    var a := AnswerTokens(tok, d);
    var all := Subwords(tok, d);
    var n := |all|;
    var maxTokensForDoc := MaxTokensForDoc(cfg, q, a);
    MultipleSpansIff(n, maxTokensForDoc, cfg.docStride);
    SingleSpan(n, maxTokensForDoc, cfg.docStride);
    var span := DocSpan(0, n);
    var b := BuildBase(tok, all, span, a, cfg.maxSeqLength);
    assert all[span.start..span.start + span.length] == all;
  }

  /**
   * With a tokenizer that maps `[SEP]` to 102, an accepted non-empty record
   * yields between 1 and |question| + 1 features; the last one is labelled
   * 102 at its slot; and when no question subword has id 102, there are
   * exactly |question| + 1 of them, and only then.
   */
  lemma TerminalFeature(cfg: Config, tok: Tokenizer, d: Data)
    requires tok.tokenId(SepToken) == SepId
    requires Terminates(cfg, tok, d)
    requires ConvertRecord(cfg, tok, d).Ok?
    requires |Subwords(tok, d)| > 0
    ensures var fs := ConvertRecord(cfg, tok, d).value;
      var p0 := |Subwords(tok, d)| + |AnswerTokens(tok, d)| + 3;
      && 1 <= |fs| <= |QueryTokens(tok, d)| + 1
      && p0 + |fs| - 1 < cfg.maxSeqLength
      && fs[|fs| - 1].outputIds[p0 + |fs| - 1] == SepId
    ensures (forall j :: 0 <= j < |QueryTokens(tok, d)| ==> tok.tokenId(QueryTokens(tok, d)[j]) != SepId)
      <==> |ConvertRecord(cfg, tok, d).value| == |QueryTokens(tok, d)| + 1
  {
    var q := QueryTokens(tok, d);
    var out := TargetIds(tok, q);
    assert out[|q|] == SepId;
    assert forall j :: 0 <= j < |q| ==> out[j] == tok.tokenId(q[j]);
    RecordOutcome(cfg, tok, d);
    var fs := ConvertRecord(cfg, tok, d).value;
    RecordFeatureContents(cfg, tok, d, |fs| - 1);
  }

  predicate AllAccepted(cfg: Config, tok: Tokenizer, data: seq<Data>) {
    forall i :: 0 <= i < |data| ==> Terminates(cfg, tok, data[i]) && ConvertRecord(cfg, tok, data[i]).Ok?
  }

  /** Reference: the features of every record, record after record. */
  function ConcatFeatures(cfg: Config, tok: Tokenizer, data: seq<Data>): seq<InputFeatures>
    requires AllAccepted(cfg, tok, data)
    decreases |data|
  {
    if |data| == 0 then []
    else ConcatFeatures(cfg, tok, data[..|data| - 1]) + ConvertRecord(cfg, tok, data[|data| - 1]).value
  }

  lemma ConcatFeaturesStep(cfg: Config, tok: Tokenizer, data: seq<Data>, idx: nat)
    requires idx < |data|
    requires AllAccepted(cfg, tok, data[..idx])
    requires Terminates(cfg, tok, data[idx]) && ConvertRecord(cfg, tok, data[idx]).Ok?
    ensures AllAccepted(cfg, tok, data[..idx + 1])
    ensures ConcatFeatures(cfg, tok, data[..idx + 1])
      == ConcatFeatures(cfg, tok, data[..idx]) + ConvertRecord(cfg, tok, data[idx]).value
  {
    assert data[..idx + 1][..idx] == data[..idx];
    assert data[..idx + 1][idx] == data[idx];
  }

  /**
   * Converts every record in order; the first rejected record aborts the
   * whole conversion with its error (`convert_data_to_features` exits the process).
   */
  method ConvertData(cfg: Config, tok: Tokenizer, data: seq<Data>) returns (r: Result<seq<InputFeatures>>)
    requires forall i :: 0 <= i < |data| && AllAccepted(cfg, tok, data[..i]) ==> Terminates(cfg, tok, data[i])
    ensures r.Ok? <==> AllAccepted(cfg, tok, data)
    ensures r.Ok? ==> r.value == ConcatFeatures(cfg, tok, data)
    ensures r.Err? ==> exists i :: (0 <= i < |data|
      && AllAccepted(cfg, tok, data[..i])
      && Terminates(cfg, tok, data[i])
      && ConvertRecord(cfg, tok, data[i]) == Err(r.error))
  {
    var features := [];
    var idx := 0;
    while idx < |data|
      invariant 0 <= idx <= |data|
      invariant AllAccepted(cfg, tok, data[..idx])
      invariant features == ConcatFeatures(cfg, tok, data[..idx])
    {
      var rec := ConvertRecord(cfg, tok, data[idx]);
      if rec.Err? {
        return Err(rec.error);
      }
      ConcatFeaturesStep(cfg, tok, data, idx);
      features := features + rec.value;
      idx := idx + 1;
    }
    assert data[..idx] == data;
    return Ok(features);
  }
}
