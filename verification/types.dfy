/**
 * Shared vocabulary of the question-generation feature pipeline: the records
 * it reads and emits, the subword-tokenizer collaborator, the configuration
 * and the error values that replace the process exits of `SQG_train`.
 */
module Types {

  /** Vocabulary id of the mask token written into the generation slot. */
  const MaskId: int := 103
  /** Vocabulary id of `[SEP]`; emitting it as a target ends a record's expansion. */
  const SepId: int := 102
  /** Label value meaning "no target at this position". */
  const IgnoreLabel: int := -1

  const ClsToken: string := "[CLS]"
  const SepToken: string := "[SEP]"

  /** One raw input entry: the three string fields of a JSON record. */
  datatype Entry = Entry(context: string, question: string, answers: string)

  /** A single training example before subword tokenization. */
  datatype Data = Data(questionText: string, docTokens: seq<string>, answersText: string)

  /** One emitted training feature; the four integer arrays are parallel. */
  datatype InputFeatures = InputFeatures(
    tokens: seq<string>,
    inputIds: seq<int>,
    inputMask: seq<int>,
    segmentIds: seq<int>,
    outputIds: seq<int>)

  /** A window over the document's subword sequence. */
  datatype DocSpan = DocSpan(start: nat, length: nat)

  /**
   * The subword tokenizer: a deterministic split of a string into subword
   * tokens, and a vocabulary lookup from token to id (assumed total).
   */
  datatype Tokenizer = Tokenizer(tokenize: string -> seq<string>, tokenId: string -> int)

  /** The four integer settings the conversion reads. */
  datatype Config = Config(
    maxSeqLength: int,
    docStride: int,
    maxQueryLength: int,
    maxAnswerLength: int)

  /** Why a record was rejected (each is a process exit in `convert_data_to_features`). */
  datatype Error = QueryTooLong | AnswerTooLong | MultipleSpans

  datatype Result<T> = Ok(value: T) | Err(error: Error)

  /** Maps tokens to vocabulary ids one by one. */
  function ConvertTokensToIds(tok: Tokenizer, tokens: seq<string>): (ids: seq<int>)
    ensures |ids| == |tokens|
    ensures forall i :: 0 <= i < |tokens| ==> ids[i] == tok.tokenId(tokens[i])
  {
    seq(|tokens|, i requires 0 <= i < |tokens| => tok.tokenId(tokens[i]))
  }

  function Min(a: int, b: int): int {
    if a < b then a else b
  }
}
