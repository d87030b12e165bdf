# Step scoring with the RLHflow Deepseek process reward model

This project models the step-scoring protocol of the process-reward-model (PRM)
wrapper `RLHflow_Deepseek_8bPRM` in `evaluation/prm_models/rlhflow_deepseek.py`.
A beam (one candidate solution) is split on `"\n\n"`. The first segment is the
prompt; the other segments, stripped, are the steps. The text scored for step 0
is the prompt, a space and the first step; every later step is scored alone.
For each step a `user` turn with that text and an `assistant` turn holding `+`
are appended to a running transcript. The whole transcript is then handed to
the language model, whose two-way softmax over the `+` and `-` logits gives
that step's score. The per-step scores are reduced by the aggregation mode:
`min`, `max`, `mean`, `prod`, `last` or `full`. Any other mode raises
`NotImplementedError`. Scoring a batch pairs every beam with its result, in
order.

Files, one module each:

- `failures.dfy` (`Failures`): the Python exceptions the scorer can raise, and
  a `Result` type that carries a value or such an exception.
- `beam.dfy` (`Beam`): `str.split("\n\n")`, its left inverse `Join`
  (re-joining a split gives back the text), `str.strip()` over Python's
  `isspace` set, the prompt/steps decomposition and the scored texts.
- `transcript.dfy` (`Transcript`): the roles, turns and the growing
  conversation.
- `aggregation.dfy` (`Aggregation`): `min`, `max`, `statistics.mean`,
  `math.prod`, `[-1]` and the mode dispatch.
- `scorer.dfy` (`Scorer`): the model oracle, the softmax and the specification
  of the step scores. It also holds the scorer class, whose step loop
  (`ScoreSteps`) and batch loop (`Call`) are methods proved against those
  specifications, and the end-to-end properties.

The language model is an oracle parameter (`Oracle`). It maps a transcript to
the exponentials of the two logits read at the fixed position. These are
modelled as two positive reals, so the softmax is written out. The range of
every score is therefore proved, not assumed. Scores are mathematical reals.

Two behaviours of the code are kept as written:

- An unknown aggregation mode is accepted when the scorer is built. It
  surfaces as `NotImplementedError` only when a beam is scored.
- A beam with zero steps is not rejected up front. Each mode behaves as
  Python does on an empty list: `min` and `max` raise `ValueError`, `mean`
  raises `StatisticsError` and `last` raises `IndexError`. `prod` gives `1`
  and `full` gives `[]`.

## Model

| member | source | states |
|---|---|---|
| Beam.Split | evaluation/prm_models/rlhflow_deepseek.py:46 | splitting always yields at least one segment, so the prompt (segment 0) exists |
| Beam.JoinExtendFirst | evaluation/prm_models/rlhflow_deepseek.py:46 | proof helper for Beam.JoinSplit: joining segments whose first one gained a leading character gives the join with that character in front |
| Beam.JoinSplit | evaluation/prm_models/rlhflow_deepseek.py:46-48 | re-joining the prompt and the unstripped step segments with `"\n\n"` gives back the beam |
| Beam.SplitSegmentsHaveNoDelim | evaluation/prm_models/rlhflow_deepseek.py:46 | no segment of the split contains `"\n\n"` |
| Beam.SplitInnerNoTrailingNewline | evaluation/prm_models/rlhflow_deepseek.py:46 | no segment but the last ends in a newline, which with the no-delimiter property makes every cut the leftmost one |
| Beam.FirstOfSplitNoTrailingNewline | evaluation/prm_models/rlhflow_deepseek.py:46 | proof helper for Beam.SplitInnerNoTrailingNewline: a first segment grown by a character that does not start a delimiter does not end in a newline |
| Beam.SplitSingleIffNoDelim | evaluation/prm_models/rlhflow_deepseek.py:46-48 | the split has exactly one segment iff the beam has no `"\n\n"`, and that segment is then the beam itself |
| Beam.NoNewlineNoDelim | evaluation/prm_models/rlhflow_deepseek.py:46 | a text without a newline contains no delimiter |
| Beam.SplitAfterSegment | evaluation/prm_models/rlhflow_deepseek.py:46 | a segment free of the delimiter and not ending in a newline is cut off whole at the delimiter after it |
| Beam.IsSpace | evaluation/prm_models/rlhflow_deepseek.py:57 | exactly the characters Python's `str.isspace` accepts: the ASCII whitespace and separator controls, U+0085, U+00A0, U+1680, U+2000-U+200A, U+2028, U+2029, U+202F, U+205F and U+3000 |
| Beam.SkipSpace | evaluation/prm_models/rlhflow_deepseek.py:57 | the forward scan stops at the first non-whitespace character at or after its start, or at the end; everything it passes is whitespace |
| Beam.SkipSpaceBack | evaluation/prm_models/rlhflow_deepseek.py:57 | the backward scan stops just after the last non-whitespace character before its end, or at its lower bound; everything it passes is whitespace |
| Beam.StripEnds | evaluation/prm_models/rlhflow_deepseek.py:57 | a stripped step neither starts nor ends with whitespace |
| Beam.StripPiece | evaluation/prm_models/rlhflow_deepseek.py:57 | a stripped step is a contiguous piece of the segment with only whitespace before and after it |
| Beam.Strip | evaluation/prm_models/rlhflow_deepseek.py:57 | `j.strip()`: drops the leading and then the trailing whitespace; its contract is stated by Beam.StripEnds and Beam.StripPiece, which together determine the result |
| Beam.StripIdempotent | evaluation/prm_models/rlhflow_deepseek.py:57 | stripping a stripped step changes nothing |
| Beam.StripAll | evaluation/prm_models/rlhflow_deepseek.py:57 | the comprehension keeps the number and order of segments, each one stripped |
| Beam.Prompt | evaluation/prm_models/rlhflow_deepseek.py:47 | the prompt is segment 0 of the split; Beam.PromptIsPrefix states what that means |
| Beam.PromptIsPrefix | evaluation/prm_models/rlhflow_deepseek.py:46-47 | the prompt holds no `"\n\n"` and is a prefix of the beam; when the beam has a delimiter the prompt is followed by one and does not end in a newline, so it is exactly the text before the first delimiter; otherwise it is the whole beam |
| Beam.Steps | evaluation/prm_models/rlhflow_deepseek.py:47-48 | a beam has one step fewer than it has segments |
| Beam.ScoredText | evaluation/prm_models/rlhflow_deepseek.py:59-62 | the text scored for one step: the prompt, a space and the step for step 0, the step alone after that; Beam.BeamTexts states it in terms of the beam |
| Beam.ScoredTexts | evaluation/prm_models/rlhflow_deepseek.py:58-62 | there is exactly one scored text per step |
| Beam.BeamTexts | evaluation/prm_models/rlhflow_deepseek.py:57-62 | text 0 is exactly `prompt + ' ' + strip(segment 1)`; text k ≥ 1 is exactly `strip(segment k+1)` |
| Beam.NoDelimNoSteps | evaluation/prm_models/rlhflow_deepseek.py:46-48 | a beam without `"\n\n"` is all prompt, with no steps and no scored texts |
| Transcript.Conversation | evaluation/prm_models/rlhflow_deepseek.py:54 | after k steps the transcript has exactly 2k turns |
| Transcript.ConversationAlternates | evaluation/prm_models/rlhflow_deepseek.py:63-64 | turn 2i is the `user` turn holding the i-th scored text; turn 2i+1 is the `assistant` turn holding `'+'` |
| Transcript.ConversationExtends | evaluation/prm_models/rlhflow_deepseek.py:54-64 | each iteration's transcript is a prefix-extension of the previous one |
| Transcript.ConversationAppend | evaluation/prm_models/rlhflow_deepseek.py:63-64 | one iteration appends exactly the user turn and the placeholder assistant turn |
| Aggregation.Min | evaluation/prm_models/rlhflow_deepseek.py:77 | `min` returns an element of the scores that is at most every score |
| Aggregation.Max | evaluation/prm_models/rlhflow_deepseek.py:79 | `max` returns an element of the scores that is at least every score |
| Aggregation.Aggregate | evaluation/prm_models/rlhflow_deepseek.py:76-89 | an unknown mode, and only an unknown mode, raises NotImplementedError; `min`, `max`, `mean` and `last` succeed iff there is a score; `prod` and `full` always succeed; `full` returns the list unchanged; `prod` of no scores is 1 |
| Aggregation.AggregateEmpty | evaluation/prm_models/rlhflow_deepseek.py:76-89 | on no scores: ValueError for `min` and `max`, StatisticsError for `mean`, IndexError for `last`, 1 for `prod`, `[]` for `full` |
| Aggregation.Mean | evaluation/prm_models/rlhflow_deepseek.py:81 | `statistics.mean` of a non-empty list, the sum over the count; Aggregation.MeanBetween and Aggregation.MeanBetweenMinAndMax state its bounds |
| Aggregation.Prod | evaluation/prm_models/rlhflow_deepseek.py:83 | `math.prod`, with 1 for no factors; Aggregation.ProdBelowEach and Aggregation.ProdBelowMin state its bounds |
| Aggregation.SumBetween | evaluation/prm_models/rlhflow_deepseek.py:81 | the sum of n scores lies between n times any lower and n times any upper bound |
| Aggregation.DivideBounds | evaluation/prm_models/rlhflow_deepseek.py:81 | proof helper for Aggregation.MeanBetween: dividing a sum bounded by n·lo and n·hi by n gives a value between lo and hi |
| Aggregation.MeanBetween | evaluation/prm_models/rlhflow_deepseek.py:81 | the mean lies between any lower and upper bound of the scores |
| Aggregation.MeanBetweenMinAndMax | evaluation/prm_models/rlhflow_deepseek.py:77-81 | the mean lies between the minimum and the maximum |
| Aggregation.UnitProduct | evaluation/prm_models/rlhflow_deepseek.py:83 | proof helper for Aggregation.ProdBelowEach: multiplying by a factor in [0,1] keeps a product in [0,1] and at most both factors |
| Aggregation.ProdBelowEach | evaluation/prm_models/rlhflow_deepseek.py:83 | a product of scores in [0,1] is in [0,1] and at most each factor |
| Aggregation.ProdBelowMin | evaluation/prm_models/rlhflow_deepseek.py:77-83 | with scores in [0,1] the product is at most the minimum |
| Aggregation.AggregateNonEmpty | evaluation/prm_models/rlhflow_deepseek.py:76-87 | on a non-empty list: `min`/`max` are elements bounding all scores, `last` is the final element, `mean` lies between `min` and `max`, `full` is the list, `prod` ≤ `min` when all scores are in [0,1] |
| Scorer.PlusProbability | evaluation/prm_models/rlhflow_deepseek.py:68-69 | the softmax probability of `+` is strictly between 0 and 1, and it and the probability of `-` sum to 1 |
| Scorer.StepScores | evaluation/prm_models/rlhflow_deepseek.py:58-71 | one score per scored text |
| Scorer.StepScoresInUnit | evaluation/prm_models/rlhflow_deepseek.py:66-71 | every step score is in [0,1] |
| Scorer.BeamScores | evaluation/prm_models/rlhflow_deepseek.py:46-71 | a beam gets one score per `"\n\n"`-separated segment after the prompt |
| Scorer.ScoreBeam | evaluation/prm_models/rlhflow_deepseek.py:43-89 | the value or exception that scoring one beam produces: the aggregation of its step scores; Scorer.FullScores, Scorer.ModesAgreeWithFull, Scorer.PromptOnlyBeam and Scorer.UnknownModeFails state its properties |
| Scorer.RlhflowDeepseekPrm.constructor | evaluation/prm_models/rlhflow_deepseek.py:18-41 | the aggregation mode and the model are stored as given, with no validation of the mode |
| Scorer.RlhflowDeepseekPrm.ScoreSteps | evaluation/prm_models/rlhflow_deepseek.py:53-71 | the loop yields score i = softmax of the oracle on the transcript after step i, in step order, with the transcript grown by one user and one assistant turn per step |
| Scorer.RlhflowDeepseekPrm.CallSingle | evaluation/prm_models/rlhflow_deepseek.py:43-89 | scoring one beam returns the aggregation, by the scorer's mode, of the beam's step scores, or the exception that aggregation raises |
| Scorer.RlhflowDeepseekPrm.Call | evaluation/prm_models/rlhflow_deepseek.py:91-106 | on success there is exactly one record per input beam, in input order, each pairing the beam verbatim with its single-beam result; otherwise the exception is that of the first beam that raises, and every earlier beam succeeded |
| Scorer.FullScores | evaluation/prm_models/rlhflow_deepseek.py:46-87 | mode `full` returns one score per step (segments minus one), each in [0,1] |
| Scorer.UnknownModeFails | evaluation/prm_models/rlhflow_deepseek.py:88-89 | a mode outside the six raises NotImplementedError for every beam |
| Scorer.PromptOnlyBeam | evaluation/prm_models/rlhflow_deepseek.py:46-89 | a beam without `"\n\n"` has no scores; `min`/`max`/`mean`/`last` raise, `prod` gives 1, `full` gives `[]` |
| Scorer.ModesAgreeWithFull | evaluation/prm_models/rlhflow_deepseek.py:76-87 | for a beam with at least one step, `min` and `max` are elements of the `full` result that bound every one of its scores, `last` is its final score, `mean` lies between `min` and `max`, and `prod` ≤ `min` |
| Scorer.TwoStepBeam | evaluation/prm_models/rlhflow_deepseek.py:46-85 | a prompt and two newline-free steps split into exactly those three segments; `full` gives two scores and `last` equals the second |

## Left out

- Model and tokenizer loading, device selection, the bfloat16 dtype and the pad-token setup (evaluation/prm_models/rlhflow_deepseek.py:25-39) are calls into an ML library. They are not modelled.
- The resolution of the `+` and `-` token ids, chat templating, the forward pass and the read-out of the two logits at position -3 are one oracle function. The oracle is total: an inference failure raised by the library is not modelled.
- Scorer.PlusProbability: the exponential of a logit is not computed. The oracle returns the two exponentials directly, as positive reals.
- Scores are exact reals. The scorer's float32 conversion and rounding are not modelled. In the model a softmax is strictly inside (0, 1); a float may round to 0 or 1. So the stated range everywhere else is [0, 1].
- Scorer.RlhflowDeepseekPrm.CallSingle: with an unknown mode, Python performs every oracle call before raising. The oracle has no modelled side effects, so only the raised exception is modelled.
- Scorer.RlhflowDeepseekPrm.constructor: the default argument values (`aggregation='full'` and the model id) are not modelled; callers pass both.
- `read_json_file` (lines 10-14) is file I/O that the scorer does not use.
- `PRM` and `StepScore` come from `prm_interface`, which is not part of this model. `StepScore` is modelled as a record of the beam and its score.
- `aws_batch_inference/download_s3.py` consists of cloud-storage and file-system calls plus command-line handling. It is not part of this model.
