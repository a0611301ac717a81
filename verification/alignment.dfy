/**
 * Subword alignment: every document token is split into subwords by the
 * tokenizer, and two index maps record which document token each subword
 * came from and where each document token's subwords begin.
 */
module Alignment {
  import opened Types

  datatype SubwordAlignment = SubwordAlignment(
    allDocTokens: seq<string>,
    tokToOrigIndex: seq<nat>,
    origToTokIndex: seq<nat>)

  /** Reference: the subwords of every document token, concatenated in order. */
  function Flatten(sub: string -> seq<string>, docTokens: seq<string>): seq<string>
    decreases |docTokens|
  {
    if |docTokens| == 0 then []
    else Flatten(sub, docTokens[..|docTokens| - 1]) + sub(docTokens[|docTokens| - 1])
  }

  /**
   * The alignment loop: one document token at a time, note where its
   * subwords begin, then append each subword and its owner's index.
   */
  function Align(sub: string -> seq<string>, docTokens: seq<string>): (a: SubwordAlignment)
    decreases |docTokens|
    ensures |a.tokToOrigIndex| == |a.allDocTokens|
    ensures |a.origToTokIndex| == |docTokens|
  {
    if |docTokens| == 0 then SubwordAlignment([], [], [])
    else
      var n := |docTokens| - 1;
      var prev := Align(sub, docTokens[..n]);
      var pieces := sub(docTokens[n]);
      SubwordAlignment(
        prev.allDocTokens + pieces,
        prev.tokToOrigIndex + seq(|pieces|, _ => n),
        prev.origToTokIndex + [|prev.allDocTokens|])
  }

  /** The subword sequence is every document token's subwords, in document order. */
  lemma {:induction false} AlignSubwords(sub: string -> seq<string>, docTokens: seq<string>)
    ensures Align(sub, docTokens).allDocTokens == Flatten(sub, docTokens)
    decreases |docTokens|
  {
    if |docTokens| > 0 {
      AlignSubwords(sub, docTokens[..|docTokens| - 1]);
    }
  }

  /** Every subword points back to a real document token, in non-decreasing order. */
  lemma {:induction false} TokToOrigSorted(sub: string -> seq<string>, docTokens: seq<string>)
    ensures forall j :: 0 <= j < |Align(sub, docTokens).tokToOrigIndex| ==>
      Align(sub, docTokens).tokToOrigIndex[j] < |docTokens|
    ensures forall j, k :: 0 <= j <= k < |Align(sub, docTokens).tokToOrigIndex| ==>
      Align(sub, docTokens).tokToOrigIndex[j] <= Align(sub, docTokens).tokToOrigIndex[k]
    decreases |docTokens|
  {
    if |docTokens| > 0 {
      var n := |docTokens| - 1;
      var prev := Align(sub, docTokens[..n]).tokToOrigIndex;
      var t := Align(sub, docTokens).tokToOrigIndex;
      TokToOrigSorted(sub, docTokens[..n]);
      assert t == prev + seq(|sub(docTokens[n])|, _ => n);
      assert forall j :: 0 <= j < |prev| ==> prev[j] < n;
      assert forall j :: 0 <= j < |prev| ==> t[j] == prev[j];
      assert forall j :: |prev| <= j < |t| ==> t[j] == n;
    }
  }

  /** Document token `i`'s subwords begin after all subwords of the tokens before it. */
  lemma {:induction false} OrigToTokOffsets(sub: string -> seq<string>, docTokens: seq<string>)
    ensures forall i :: 0 <= i < |docTokens| ==>
      Align(sub, docTokens).origToTokIndex[i] == |Flatten(sub, docTokens[..i])|
    decreases |docTokens|
  {
    if |docTokens| > 0 {
      var n := |docTokens| - 1;
      OrigToTokOffsets(sub, docTokens[..n]);
      AlignSubwords(sub, docTokens[..n]);
      assert forall i :: 0 <= i <= n ==> docTokens[..n][..i] == docTokens[..i];
    }
  }

  /**
   * Document token `i`'s `k`-th subword sits at `origToTokIndex[i] + k` and
   * maps back to `i`.
   */
  lemma {:induction false} AlignOwnership(sub: string -> seq<string>, docTokens: seq<string>)
    ensures forall i, k :: 0 <= i < |docTokens| && 0 <= k < |sub(docTokens[i])| ==>
      && Align(sub, docTokens).origToTokIndex[i] + k < |Align(sub, docTokens).allDocTokens|
      && Align(sub, docTokens).allDocTokens[Align(sub, docTokens).origToTokIndex[i] + k]
         == sub(docTokens[i])[k]
      && Align(sub, docTokens).tokToOrigIndex[Align(sub, docTokens).origToTokIndex[i] + k] == i
    decreases |docTokens|
  {
    if |docTokens| > 0 {
      var n := |docTokens| - 1;
      var prev := Align(sub, docTokens[..n]);
      var a := Align(sub, docTokens);
      OrigBeforeEnd(sub, docTokens[..n]);
      AlignOwnership(sub, docTokens[..n]);
      assert a.allDocTokens == prev.allDocTokens + sub(docTokens[n]);
      assert a.tokToOrigIndex == prev.tokToOrigIndex + seq(|sub(docTokens[n])|, _ => n);
      assert a.origToTokIndex == prev.origToTokIndex + [|prev.allDocTokens|];
      assert forall i :: 0 <= i < n ==>
        a.origToTokIndex[i] == prev.origToTokIndex[i] && docTokens[..n][i] == docTokens[i];
    }
  }

  /** Every block of subwords lies inside the subword sequence. */
  lemma {:induction false} OrigBeforeEnd(sub: string -> seq<string>, docTokens: seq<string>)
    ensures forall i :: 0 <= i < |docTokens| ==>
      Align(sub, docTokens).origToTokIndex[i] + |sub(docTokens[i])|
      <= |Align(sub, docTokens).allDocTokens|
    decreases |docTokens|
  {
    if |docTokens| > 0 {
      OrigBeforeEnd(sub, docTokens[..|docTokens| - 1]);
    }
  }

  /** Every subword lies inside the block of the document token it maps to. */
  lemma {:induction false} AlignBlocks(sub: string -> seq<string>, docTokens: seq<string>)
    ensures forall j :: 0 <= j < |Align(sub, docTokens).tokToOrigIndex| ==>
      && Align(sub, docTokens).tokToOrigIndex[j] < |docTokens|
      && Align(sub, docTokens).origToTokIndex[Align(sub, docTokens).tokToOrigIndex[j]] <= j
      && j < Align(sub, docTokens).origToTokIndex[Align(sub, docTokens).tokToOrigIndex[j]]
             + |sub(docTokens[Align(sub, docTokens).tokToOrigIndex[j]])|
    decreases |docTokens|
  {
    if |docTokens| > 0 {
      var n := |docTokens| - 1;
      var prev := Align(sub, docTokens[..n]);
      var a := Align(sub, docTokens);
      AlignBlocks(sub, docTokens[..n]);
      TokToOrigSorted(sub, docTokens[..n]);
      assert a.tokToOrigIndex == prev.tokToOrigIndex + seq(|sub(docTokens[n])|, _ => n);
      assert a.origToTokIndex == prev.origToTokIndex + [|prev.allDocTokens|];
      assert forall j :: 0 <= j < |prev.tokToOrigIndex| ==>
        a.tokToOrigIndex[j] == prev.tokToOrigIndex[j] < n;
      assert forall i :: 0 <= i < n ==>
        a.origToTokIndex[i] == prev.origToTokIndex[i] && docTokens[..n][i] == docTokens[i];
      assert forall j :: |prev.tokToOrigIndex| <= j < |a.tokToOrigIndex| ==> a.tokToOrigIndex[j] == n;
    }
  }

  /**
   * The two maps are mutually consistent: subword `j` belongs to document
   * token `i` exactly when `j` lies in the block that starts at
   * `origToTokIndex[i]` and is as long as token `i`'s subword list.
   */
  lemma AlignmentInverse(sub: string -> seq<string>, docTokens: seq<string>, i: int, j: int)
    requires 0 <= i < |docTokens|
    requires 0 <= j < |Align(sub, docTokens).allDocTokens|
    ensures Align(sub, docTokens).tokToOrigIndex[j] == i <==>
      && Align(sub, docTokens).origToTokIndex[i] <= j
      && j < Align(sub, docTokens).origToTokIndex[i] + |sub(docTokens[i])|
  {
    var a := Align(sub, docTokens);
    AlignBlocks(sub, docTokens);
    AlignOwnership(sub, docTokens);
    if a.origToTokIndex[i] <= j < a.origToTokIndex[i] + |sub(docTokens[i])| {
      var k := j - a.origToTokIndex[i];
      assert 0 <= k < |sub(docTokens[i])|;
      assert a.allDocTokens[a.origToTokIndex[i] + k] == sub(docTokens[i])[k];
      assert a.tokToOrigIndex[j] == i;
    }
  }
}
