# Batch reward scoring for mathematical answers — a Dafny model

This project models the reward function that a reinforcement-learning
fine-tuning loop calls on each batch of model responses
(`examples/reward_function/math.py`). For every sample, the scorer:

1. normalises the response with the substitution `\s*(<|>|/)\s*` → `\1`,
   which deletes whitespace around `<`, `>` and `/`;
2. grades the normalised response against the ground truth (accuracy 0 or 1).
   Optionally it also checks the response against the format pattern
   `<think>.*</think>.*\\boxed\{.*\}.*` (format 0 or 1);
3. combines the sub-scores into a per-sample record. There are three batch
   scorers:
   - `compute_score`: a convex mix of accuracy and format;
   - `compute_score_wo_format`: accuracy alone;
   - `compute_score_wo_format_length_limit`: accuracy plus a length penalty
     `R_length` in [-1, 0]. The penalty is measured against `L_mean`, the mean
     raw length of the batch's correct responses, and `L_MAX_HARD_LIMIT`
     (default 2048).

Modules, one per component:

- `Normalization` (`normalization.dfy`) models the substitution.
  `Normalize` follows the regular-expression scan. At each position the
  greedy `\s*` takes the whole whitespace run. If a delimiter follows, the run,
  the delimiter and the next run are replaced by the delimiter. Otherwise the
  current character is copied and the scan moves on by one. `Tighten` is an
  independent per-character rule: a whitespace character is dropped exactly
  when its whitespace run touches a delimiter. The two are proved equal.
  `\s` is Python's Unicode whitespace set, listed out in `IsSpace`.
- `FormatCheck` (`format_check.dfy`) models `format_reward`.
  `FormatReward` searches each literal at its earliest position.
  `MatchesFormat` states the pattern's language with explicit positions.
  The contract of `FormatReward` proves the two agree.
- `Grading` (`grading.dfy`) holds the input record `Sample` and `accuracy_reward`.
  The answer extractor and the semantic grader come from an external library.
  They are modelled as uninterpreted function values in a `Grader`.
- `BatchStats` (`batch_stats.dfy`) models pass 1's collection of correct
  lengths, `has_correct_samples` and `L_mean`.
- `Penalty` (`penalty.dfy`) models `R_length`.
- `Scoring` (`scoring.dfy`) models the three batch scorers. Their loops
  mirror the source's loops, and the length-limited scorer makes two passes.

Arithmetic on scores uses Dafny's exact `real` in place of Python floats.
Lengths are `nat` character counts of the raw response.

The format pattern has no leading `.*` and is used with a full match, so the
response must begin with `<think>`. `MatchesFormat` states this.

## Model

| member | source | states |
|---|---|---|
| Normalization.IsSpace | examples/reward_function/math.py:38 | the class `\s` of the pattern: exactly the characters for which Python's `str.isspace` holds, listed out by code point (it has no contract; the lemmas about `Normalize` use it) |
| Normalization.Normalize | examples/reward_function/math.py:38 | the substitution never lengthens the response |
| Normalization.NormalizeIsTighten | examples/reward_function/math.py:38 | the left-to-right substitution deletes exactly the whitespace whose run touches a `<`, `>` or `/` on either side, and nothing else |
| Normalization.NormalizeDeletesOnlySpaces | examples/reward_function/math.py:38 | only whitespace characters are removed; every other character survives, in its original order |
| Normalization.NormalizeIsTight | examples/reward_function/math.py:38 | afterwards no whitespace stands immediately before or after a `<`, `>` or `/` |
| Normalization.NormalizeFixedIff | examples/reward_function/math.py:38 | a response is unchanged by the substitution if and only if it already has no whitespace next to a delimiter |
| Normalization.NormalizeIdempotent | examples/reward_function/math.py:38 | normalising twice gives the same text as normalising once |
| FormatCheck.FindFrom | examples/reward_function/math.py:22-23 | the result is the first occurrence of the literal at or after the start index, and none is reported only when no later occurrence exists |
| FormatCheck.FormatReward | examples/reward_function/math.py:21-24 | the reward is 0.0 or 1.0. It is 1.0 exactly when the response starts with `<think>` and then contains `</think>`, `\boxed{` and `}` in that order without overlap, which is the language of the fully matched pattern |
| Grading.AccuracyReward | examples/reward_function/math.py:27-29 | accuracy is 0.0 or 1.0, and it is 1.0 exactly when `grade_answer` accepts the answer extracted from the response |
| Grading.SampleAccuracy | examples/reward_function/math.py:104-105 | a sample's accuracy is 0.0 or 1.0 and is graded on the normalised response |
| BatchStats.Measure | examples/reward_function/math.py:100-110 | the pass-1 record of one sample: accuracy on the normalised response beside the raw length (no contract of its own; `MeasureSpec` states its properties) |
| BatchStats.MeasureSpec | examples/reward_function/math.py:100-110 | a pass-1 record's length is the raw response's `len`, its accuracy is 0.0 or 1.0, and it is 1.0 exactly when the sample is graded correct on the normalised response |
| BatchStats.MeasureAll | examples/reward_function/math.py:93-110 | pass 1 keeps one record per sample, in batch order; the record at each position is that sample's accuracy and raw length |
| BatchStats.CorrectLengthsMembership | examples/reward_function/math.py:112-115 | on pass 1's records: every collected length is the length of a record with accuracy 1.0, and every such record's length is collected |
| BatchStats.CorrectLengths | examples/reward_function/math.py:112-115 | `correct_lengths`, never longer than the batch. Through `CorrectLengthsIndexed`, it holds one entry per correct record, in batch order, each the length of that record |
| BatchStats.CorrectIndices | examples/reward_function/math.py:114-115 | the positions of the correct records; each is in range |
| BatchStats.CorrectIndicesSpec | examples/reward_function/math.py:114-115 | those positions are strictly increasing, each is a record with accuracy 1.0, and no correct position is missed |
| BatchStats.CorrectLengthsCount | examples/reward_function/math.py:114-115 | the collected list is exactly as long as the number of correct records |
| BatchStats.CorrectLengthAt | examples/reward_function/math.py:114-115 | the `k`-th collected length is the length of the `k`-th correct record |
| BatchStats.CorrectLengthsIndexed | examples/reward_function/math.py:112-115 | the collected list has exactly one entry per correct record, in batch order: its length is the number of correct records and its `k`-th entry is the length of the `k`-th correct record |
| BatchStats.CollectedInBatchOrder | examples/reward_function/math.py:93-115 | on samples: the `k`-th collected length is the raw length of the `k`-th correctly graded sample, so `len(correct_lengths)` counts the correct samples and no correct sample is skipped or counted twice |
| BatchStats.CollectedIsCorrect | examples/reward_function/math.py:93-115 | every collected length is the raw length of some sample that is graded correct |
| BatchStats.CorrectIsCollected | examples/reward_function/math.py:93-115 | the raw length of every correctly graded sample is among the collected lengths |
| BatchStats.HasCorrect | examples/reward_function/math.py:120 | `bool(correct_lengths)`. Through `HasCorrectIff`, it holds exactly when some sample of the batch is correct (it has no contract of its own) |
| BatchStats.HasCorrectIff | examples/reward_function/math.py:120 | `has_correct_samples` holds exactly when some sample of the batch is correct |
| BatchStats.Mean | examples/reward_function/math.py:123 | the mean is non-negative, and mean times count equals the sum |
| BatchStats.BatchMean | examples/reward_function/math.py:119-123 | `L_mean` is non-negative and is 0.0 when the batch has no correct sample |
| BatchStats.BatchMeanPermutation | examples/reward_function/math.py:119-123 | `has_correct_samples` and `L_mean` do not depend on the order of the batch |
| BatchStats.SumPermutation | examples/reward_function/math.py:123 | the sum of the collected lengths does not depend on their order |
| BatchStats.CorrectLengthsPermutation | examples/reward_function/math.py:112-115 | reordering pass 1's records only reorders the collected lengths: the same lengths, with the same multiplicities |
| BatchStats.CorrectSampleWithinMean | examples/reward_function/math.py:119-123 | when some sample is correct, some correct sample's raw length is at most `L_mean` |
| Penalty.LengthPenalty | examples/reward_function/math.py:132-156 | `R_length` lies in [-1, 0]. It is 0 exactly when the batch has no correct sample or the length is at most `L_mean` (inclusive). It is -1 exactly when the batch has a correct sample, the length exceeds `L_mean` and the length reaches the hard limit. In a batch with a correct sample, strictly between `L_mean` and the hard limit, it is the unclamped linear ramp `(L_mean - length) / (limit - L_mean)` |
| Penalty.PenaltyMonotone | examples/reward_function/math.py:132-156 | for a fixed batch, a longer response is never penalised less |
| Scoring.WeightedScoreOf | examples/reward_function/math.py:38-47 | accuracy and format are computed on the normalised response. Accuracy contributes `1 - w` and format contributes `w`. With `w` in [0, 1] the overall score is in [0, 1]. With `w` strictly inside (0, 1) it is 1 exactly when both sub-scores are 1 |
| Scoring.ComputeScore | examples/reward_function/math.py:32-49 | one record per sample, in input order. Accuracy and format are computed on the normalised response. The overall score is the weighted mix and lies in [0, 1] when the weight does |
| Scoring.ComputeScoreWithDefaultWeight | examples/reward_function/math.py:32-47 | with the default `format_weight` 0.1, each record holds the accuracy and the format reward of the normalised response and `overall = 0.9 * accuracy + 0.1 * format`; every overall score is in [0, 1] and is 1 exactly when both are 1 |
| Scoring.ComputeScoreWoFormat | examples/reward_function/math.py:51-66 | one record per sample, in input order, whose overall score is its accuracy on the normalised response |
| Scoring.LengthScoreOf | examples/reward_function/math.py:159-165 | `overall = accuracy + R_length` lies in [-1, 1]. It is at most 0 for an incorrect sample and at least 0 for a correct one |
| Scoring.NoCorrectNoPenalty | examples/reward_function/math.py:132-136 | when no sample of the batch is correct, every sample's `R_length` is 0 and so is its overall score |
| Scoring.ReorderingKeepsScores | examples/reward_function/math.py:117-123 | reordering the batch changes only which position receives which record; each sample's record is unchanged |
| Scoring.SomeSampleScoresOne | examples/reward_function/math.py:122-139 | when the batch has a correct sample, some sample scores exactly 1 overall |
| Scoring.MeasureBatch | examples/reward_function/math.py:93-115 | pass 1 yields, in batch order, each sample's accuracy on the normalised response and its raw length, and its collected list is the `correct_lengths` of those records (one entry per correct record, in order, by `CorrectLengthsIndexed`) |
| Scoring.ScoreOf | examples/reward_function/math.py:129-165 | the pass-2 record of one pass-1 record: accuracy carried over, `R_length` the penalty for its length, `overall = accuracy + R_length`; without a correct sample in the batch the overall score is the accuracy, and for an accuracy in {0, 1} it lies in [-1, 1] |
| Scoring.PenaliseBatch | examples/reward_function/math.py:127-165 | pass 2 yields one record per pass-1 record, in order, each carrying its accuracy, the penalty for its length and their sum |
| Scoring.ComputeScoreWoFormatLengthLimit | examples/reward_function/math.py:78-167 | one record per sample, in input order. Accuracy is computed on the normalised response. The penalty uses the raw length and this batch's `has_correct_samples` and `L_mean`. `overall = accuracy + R_length`, in [-1, 1]. Without a correct sample every penalty and overall score is 0. With one, some sample scores 1 |
| Scoring.ComputeScoreWoFormatLengthLimitWithDefaultLimit | examples/reward_function/math.py:78-81 | with the default `L_MAX_HARD_LIMIT` 2048, each record is the one scored against that limit. In a batch with a correct sample, a response of at least 2048 characters that is longer than `L_mean` gets `R_length` -1 |

## Left out

- The `isinstance(…, list)` checks that raise `ValueError` (math.py:33-34, 52-53, 85-86): the batch is a `seq<Sample>` by type, so a non-list batch cannot be passed.
- The internals of `extract_boxed_content` and `grade_answer` (math.py:18): they belong to an external library that is not part of this model. They are uninterpreted function parameters, so an exception raised by `grade_answer` is not modelled either.
- Floating-point rounding: `L_mean`, the penalty and the weighted mix are exact rationals (`real`). This includes the integer-by-integer division that produces `L_mean`.
- Python strings may hold lone surrogate code points. Dafny `char` is a Unicode scalar value, so those strings are not represented.
- The logging backends (`verl/utils/logger/gen_logger.py`) and the model and dataset upload scripts (`upload_hf.py`, `upload_hf_dataset.py`, `upload_ms.py`): these are console, dashboard and network I/O with no scoring logic.
- The regular-expression engine's backtracking is not modelled. `FormatReward` decides the same yes/no answer by an earliest-occurrence search, and its contract proves that answer equal to membership in the pattern's language.