# Question-generation feature pipeline, modelled in Dafny

This project models the feature-generation core of the sequential question
generation training script (`SQG_train`). The script turns
(context, answer, question) triples into fixed-length training features for
a masked language model that learns to generate the question one subword at
a time. It has four parts, and each is a module here:

- **Reader** (`reader.dfy`). The character loop of `read_data` splits the
  context into document tokens. A token is a maximal run of characters that
  are not space, tab, CR, LF or U+202F.
- **Alignment** (`alignment.dfy`). Every document token is split into
  subwords. Two index maps are built: `tok_to_orig_index` (subword to
  document token) and `orig_to_tok_index` (document token to its first
  subword).
- **Windowing** (`windowing.dfy`) and **MaxContext** (`max_context.dfy`).
  The sliding-window loop builds the doc spans.
  `_check_is_max_context` picks which span owns a subword position.
- **Expansion** (`expansion.dfy`) and **Pipeline** (`pipeline.dfy`).
  - The base sequence is `[CLS] doc [SEP] answer [SEP]`, padded to
    `max_seq_length`.
  - It is expanded into one feature per target id. Each feature masks the
    current slot (id 103, mask 1, segment 2) and labels it with the target.
    The earlier slots hold the real earlier targets.
  - Expansion stops after the first `[SEP]` id (102).
  - A record is rejected when its question or answer is over-length, or
    when its document needs more than one window.

`types.dfy` holds the shared records and constants:
- `Data`, `InputFeatures` and `DocSpan`;
- the tokenizer collaborator, a pair of total functions `tokenize` and `tokenId`;
- the configuration;
- the error values that stand in for the script's `exit()` calls.

The subword tokenizer is a parameter. Its vocabulary lookup is assumed
total, as `convert_tokens_to_ids` is for the tokens that reach it.

Behaviour of the code that the model keeps as it is:
- An empty document (zero subwords) yields zero spans. So it yields zero
  features and no error.
- Expansion stops at the first target id equal to 102, even when that id
  comes from a question subword and not from the final `[SEP]`. So a
  question of `k` subwords yields `k + 1` features exactly when no question
  subword has id 102 (`Pipeline.TerminalFeature`).
- For a non-empty document, a non-positive `max_tokens_for_doc` makes the windowing loop
  (lines 156-163) run forever, and so does a non-positive `doc_stride` when the
  document is longer than one window. The model therefore requires the
  exact termination condition (`Windowing.WindowingTerminates`,
  `Pipeline.Terminates`). `Pipeline.ValidConfigTerminates` shows that a
  configuration meets this condition for every record when it has a
  positive window budget for the longest allowed question and answer and a
  positive stride. `Pipeline.ConvertData` needs the condition only for the
  records it reaches, meaning those after which every earlier record was
  accepted.
- A rejected record ends the whole conversion, as `exit()` does.
- Span scores are compared as exact reals, but the code compares
  floating-point doubles. So an exact tie can go to a different span than
  the code picks (see the MaxContext lines under "Left out").

## Model

| member | source | states |
|---|---|---|
| Reader.Scan | QG/SQG_model/.ipynb_checkpoints/SQG_train-checkpoint.py:88-98 | the loop's "previous was whitespace" flag is set exactly when nothing or a whitespace character was read last; a cleared flag means a token is open |
| Reader.ScanTokensAreWords | QG/SQG_model/.ipynb_checkpoints/SQG_train-checkpoint.py:79-98 | every emitted token is non-empty and contains no space, tab, CR, LF or U+202F |
| Reader.DocTokens | QG/SQG_model/.ipynb_checkpoints/SQG_train-checkpoint.py:88-98 | the document tokens of a context are all non-empty and whitespace-free |
| Reader.ConcatIsStripped | QG/SQG_model/.ipynb_checkpoints/SQG_train-checkpoint.py:88-98 | gluing the tokens together gives the context with every whitespace character deleted |
| Reader.TokenCountIsRunCount | QG/SQG_model/.ipynb_checkpoints/SQG_train-checkpoint.py:88-98 | the number of tokens equals the number of positions where a maximal non-whitespace run begins |
| Reader.JoinRoundTrip | QG/SQG_model/.ipynb_checkpoints/SQG_train-checkpoint.py:88-98 | re-reading any well-formed tokens joined by a non-empty whitespace separator gives the same tokens back |
| Reader.ReadIsIdempotent | QG/SQG_model/.ipynb_checkpoints/SQG_train-checkpoint.py:88-98 | reading the space-joined tokens of a context again gives the same tokens |
| Reader.ReadData | QG/SQG_model/.ipynb_checkpoints/SQG_train-checkpoint.py:84-110 | one record per entry, question and answer copied unchanged, document tokens well-formed and concatenating to the whitespace-free context |
| Alignment.Align | QG/SQG_model/.ipynb_checkpoints/SQG_train-checkpoint.py:133-142 | `tok_to_orig_index` is as long as the subword sequence and `orig_to_tok_index` as long as the document token list |
| Alignment.AlignSubwords | QG/SQG_model/.ipynb_checkpoints/SQG_train-checkpoint.py:137-142 | the subword sequence is every document token's subwords concatenated in document order |
| Alignment.TokToOrigSorted | QG/SQG_model/.ipynb_checkpoints/SQG_train-checkpoint.py:137-142 | every subword maps to an existing document token, and the map is non-decreasing |
| Alignment.OrigToTokOffsets | QG/SQG_model/.ipynb_checkpoints/SQG_train-checkpoint.py:137-138 | `orig_to_tok_index[i]` is the number of subwords of the document tokens before token i |
| Alignment.AlignOwnership | QG/SQG_model/.ipynb_checkpoints/SQG_train-checkpoint.py:137-142 | the k-th subword of document token i sits at `orig_to_tok_index[i] + k` and maps back to i |
| Alignment.AlignBlocks | QG/SQG_model/.ipynb_checkpoints/SQG_train-checkpoint.py:137-142 | every subword lies inside the block of the document token it maps to |
| Alignment.AlignmentInverse | QG/SQG_model/.ipynb_checkpoints/SQG_train-checkpoint.py:137-142 | subword j maps to document token i if and only if j lies in token i's block |
| Windowing.SpansFrom | QG/SQG_model/.ipynb_checkpoints/SQG_train-checkpoint.py:155-163 | from an offset inside the document, the loop yields at least one span, starting at that offset, with the last span ending at the document end; every span has a length in 1..max_tokens_for_doc and stays inside the document |
| Windowing.DocSpans | QG/SQG_model/.ipynb_checkpoints/SQG_train-checkpoint.py:154-163 | no spans exactly for an empty document; otherwise the first starts at 0 and the last ends at the document end, and every span has a length in 1..max_tokens_for_doc and stays inside the document |
| Windowing.SpansFromIncrease | QG/SQG_model/.ipynb_checkpoints/SQG_train-checkpoint.py:156-163 | from any offset, the start offsets of the spans the loop appends strictly increase |
| Windowing.SpansFromNoGaps | QG/SQG_model/.ipynb_checkpoints/SQG_train-checkpoint.py:156-163 | from any offset, each appended span starts no later than the previous span's end |
| Windowing.StartsIncrease | QG/SQG_model/.ipynb_checkpoints/SQG_train-checkpoint.py:154-163 | the start offsets of the doc spans strictly increase, and no span starts after the previous one ends |
| Windowing.MultipleSpansIff | QG/SQG_model/.ipynb_checkpoints/SQG_train-checkpoint.py:156-163 | more than one span results exactly when the document is non-empty and longer than max_tokens_for_doc |
| Windowing.SingleSpan | QG/SQG_model/.ipynb_checkpoints/SQG_train-checkpoint.py:156-162 | a non-empty document that fits one window gets exactly the span (0, its length) |
| Windowing.SpansCoverFrom | QG/SQG_model/.ipynb_checkpoints/SQG_train-checkpoint.py:156-163 | every position from the starting offset to the document end is inside some span |
| Windowing.SpansCover | QG/SQG_model/.ipynb_checkpoints/SQG_train-checkpoint.py:154-163 | every subword position of the document is inside some doc span |
| MaxContext.ScoreOrderAgrees | QG/SQG_model/.ipynb_checkpoints/SQG_train-checkpoint.py:298-301 | comparing `100*min(left,right) + length` orders spans exactly as comparing the exact real-valued scores `min(left,right) + 0.01*length` |
| MaxContext.BestSpanIsFirstMaximizer | QG/SQG_model/.ipynb_checkpoints/SQG_train-checkpoint.py:290-303 | the scan finds no winner exactly when no span contains the position; otherwise its winner contains it, has the greatest score, and every earlier containing span scores strictly lower |
| MaxContext.MaxContextIff | QG/SQG_model/.ipynb_checkpoints/SQG_train-checkpoint.py:271-305 | the check answers true for a span index if and only if that span is the first containing span of greatest score |
| MaxContext.ExactlyOneOwner | QG/SQG_model/.ipynb_checkpoints/SQG_train-checkpoint.py:290-305 | a position inside some span is owned by exactly one span index; a position inside none is owned by no index |
| MaxContext.NotCoveringNotMax | QG/SQG_model/.ipynb_checkpoints/SQG_train-checkpoint.py:293-297 | a span that does not contain the position never owns it |
| MaxContext.TieExampleSpans | QG/SQG_model/.ipynb_checkpoints/SQG_train-checkpoint.py:156-163 | 119 subwords with a window of 118 and a stride of 101 give the spans (0, 118) and (101, 18) |
| MaxContext.ExactTieKeepsEarlier | QG/SQG_model/.ipynb_checkpoints/SQG_train-checkpoint.py:298-303 | in those spans position 115 has equal exact scores in both spans, and the model gives it to the earlier span |
| Expansion.Pad | QG/SQG_model/.ipynb_checkpoints/SQG_train-checkpoint.py:214-222 | the padded sequence has exactly max_seq_length entries, keeps the unpadded prefix, and is zero after it |
| Expansion.BuildBase | QG/SQG_model/.ipynb_checkpoints/SQG_train-checkpoint.py:179-222 | tokens are `[CLS]`, the span's subwords, `[SEP]`, the answer, `[SEP]`; label_pos equals span length + answer length + 3; the three id arrays have length max_seq_length; the mask is 1 exactly before label_pos; segment is 1 exactly over answer and its `[SEP]`; ids are the token ids then zeros |
| Expansion.EmitCount | QG/SQG_model/.ipynb_checkpoints/SQG_train-checkpoint.py:224-261 | the number of emitted features is the index of the first 102 plus one, or all target ids when there is no 102 |
| Expansion.StepFeature | QG/SQG_model/.ipynb_checkpoints/SQG_train-checkpoint.py:226-259 | all four arrays of feature i have the fixed length |
| Expansion.EmitCountBeyond | QG/SQG_model/.ipynb_checkpoints/SQG_train-checkpoint.py:224-261 | a target after only non-102 targets is always emitted, and is the last one emitted when it is 102 |
| Expansion.Expand | QG/SQG_model/.ipynb_checkpoints/SQG_train-checkpoint.py:224-267 | the loop emits EmitCount features; feature i masks slot label_pos+i, reveals the real targets before it, labels only that slot with target i, and keeps the base elsewhere, so the loop stops right after the first 102 target |
| Expansion.NextStepReveals | QG/SQG_model/.ipynb_checkpoints/SQG_train-checkpoint.py:263-267 | feature i+1 equals feature i with its masked slot replaced by the real target i and the next slot masked |
| Pipeline.RecordOutcome | QG/SQG_model/.ipynb_checkpoints/SQG_train-checkpoint.py:119-169 | a record is rejected for an over-long question, else for an over-long answer, else for needing more than one window, each exactly under its condition; accepted records yield fixed-length features, none for an empty document and EmitCount of the question ids plus `[SEP]` otherwise |
| Pipeline.SingleSpanFits | QG/SQG_model/.ipynb_checkpoints/SQG_train-checkpoint.py:145-147 | with one span, label_pos plus the question length plus one is at most max_seq_length, so every slot write is in bounds |
| Pipeline.ValidConfigTerminates | QG/SQG_model/.ipynb_checkpoints/SQG_train-checkpoint.py:147-163 | a positive window budget for the longest allowed question and answer plus a positive stride makes the windowing loop end for every record |
| Pipeline.RecordFeatureContents | QG/SQG_model/.ipynb_checkpoints/SQG_train-checkpoint.py:172-267 | exact contents of every array of feature i of an accepted record, position by position: ids, mask, segments (0, 1, then 2 over the generated slots) and the single label |
| Pipeline.TerminalFeature | QG/SQG_model/.ipynb_checkpoints/SQG_train-checkpoint.py:201-261 | with `[SEP]` mapped to 102, a non-empty accepted record yields 1 to question length + 1 features, the last labelled 102 at its slot, and exactly question length + 1 features if and only if no question subword has id 102 |
| Pipeline.ConvertData | QG/SQG_model/.ipynb_checkpoints/SQG_train-checkpoint.py:113-269 | needs the windowing loop to end only for the records it reaches; succeeds exactly when every record is accepted, and then returns the records' features in order; otherwise returns the error of the first rejected record, all records before it having been accepted |

## Left out

- `main`, argument parsing, device selection, distributed training,
  optimizer, training loop, checkpointing and the pickled feature cache.
  These are I/O, GPU and concurrency.
- `warmup_linear`: a floating-point learning-rate schedule outside the
  feature pipeline.
- The JSON file reading in `read_data`. A missing field raises a Python
  `KeyError`. The model takes entries that already hold the three strings.
- Logging, `print` and `tqdm` progress bars. These are output side effects
  only.
- `BertTokenizer` and the model class: their source is not part of this
  model. The tokenizer is a parameter (`tokenize`, `tokenId`).
- The `token_to_orig_map` and `token_is_max_context` dictionaries. They are
  built per span but never read. `_check_is_max_context` is modelled on
  its own in `MaxContext`.
- The truncation of an over-long question or answer before `exit()`. The
  record is rejected either way, so the truncated value is never used.
- Process termination by `exit()`. It is modelled as an `Err` result that
  ends the conversion.
- MaxContext.ScoreOrderAgrees: relates the integer score to the exact
  real-valued score. The code computes `min(left, right) + 0.01 * length`
  in doubles, and rounding can split an exact tie at ordinary span lengths.
  Example: 119 subwords, `max_tokens_for_doc` 118, `doc_stride` 101,
  position 115. Exactly, 2 + 0.01 * 118 equals 3 + 0.01 * 18. In doubles
  the first is 3.1799999999999997 and the second 3.18
  (`MaxContext.TieExampleSpans`, `MaxContext.ExactTieKeepsEarlier`).
- MaxContext.BestSpanIsFirstMaximizer: on an exact real tie the model
  keeps the earlier span. The code's doubles may rank the later span
  strictly higher and pick it instead, as in the example above, where the
  code picks span 1.
- MaxContext.MaxContextIff: states the rule over exact reals. In the
  example above it answers yes for span 0 and no for span 1 at position
  115. The code answers no for span 0 and yes for span 1.
- Expansion.Pad: requires the unpadded sequence to fit. The source instead
  fails its length assertion afterwards, which cannot happen for a single
  span (`Pipeline.SingleSpanFits`).
- Expansion.Expand: requires every slot write to be inside the sequence.
  Without it the source raises an index error. For whole records this is
  proved, not assumed (`Pipeline.SingleSpanFits`).
- Windowing.DocSpans: requires the loop to terminate. On other inputs the
  source loops forever, which a total function cannot express.
