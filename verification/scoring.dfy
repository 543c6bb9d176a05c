/**
  The three batch scorers. Each takes the whole batch and returns one record
  per sample, in input order:

  - `ComputeScore`: a convex mix of accuracy and format;
  - `ComputeScoreWoFormat`: accuracy alone;
  - `ComputeScoreWoFormatLengthLimit`: accuracy plus a length penalty measured
    against the mean raw length of this batch's correct responses, computed in
    two passes over the batch.
 */
module Scoring {
  import opened Normalization
  import opened FormatCheck
  import opened Grading
  import opened BatchStats
  import opened Penalty

  /** `format_weight`'s default value. */
  const DefaultFormatWeight: real := 0.1

  datatype WeightedScore = WeightedScore(overall: real, format: real, accuracy: real)

  datatype AccuracyScore = AccuracyScore(overall: real, accuracy: real)

  datatype LengthScore = LengthScore(overall: real, accuracy: real, rLength: real)

  // ---------------------------------------------------------------------------
  // Format-weighted score

  /** The record `compute_score` builds for one sample: both sub-scores are in
      {0, 1}, accuracy contributes `1 - w` and format contributes `w`. With a
      weight in [0, 1] the overall score stays in [0, 1]; with a weight strictly
      inside (0, 1) it reaches 1 only when the answer is right and the format
      is met. */
  function WeightedScoreOf(g: Grader, x: Sample, formatWeight: real): (r: WeightedScore)
    ensures r.accuracy == SampleAccuracy(g, x)
    ensures r.format == FormatReward(Normalize(x.response))
    ensures r.overall == (if r.accuracy == 1.0 then 1.0 - formatWeight else 0.0) + (if r.format == 1.0 then formatWeight else 0.0)
    ensures 0.0 <= formatWeight <= 1.0 ==> 0.0 <= r.overall <= 1.0
    ensures 0.0 < formatWeight < 1.0 ==> (r.overall == 1.0 <==> r.accuracy == 1.0 && r.format == 1.0)
  {
    var response := Normalize(x.response);
    var formatScore := FormatReward(response);
    var accuracyScore := AccuracyReward(g, response, x.groundTruth);
    ConvexMix(accuracyScore, formatScore, formatWeight);
    WeightedScore((1.0 - formatWeight) * accuracyScore + formatWeight * formatScore, formatScore, accuracyScore)
  }

  /** The weighted mix of two scores in {0, 1}, by cases. */
  lemma ConvexMix(accuracy: real, format: real, w: real)
    requires accuracy == 0.0 || accuracy == 1.0
    requires format == 0.0 || format == 1.0
    ensures var overall := (1.0 - w) * accuracy + w * format;
      && overall == (if accuracy == 1.0 then 1.0 - w else 0.0) + (if format == 1.0 then w else 0.0)
      && (0.0 <= w <= 1.0 ==> 0.0 <= overall <= 1.0)
      && (0.0 < w < 1.0 ==> (overall == 1.0 <==> accuracy == 1.0 && format == 1.0))
  {
    if accuracy == 0.0 {
      assert (1.0 - w) * accuracy == 0.0;
    } else {
      assert (1.0 - w) * accuracy == 1.0 - w;
    }
    if format == 0.0 {
      assert w * format == 0.0;
    } else {
      assert w * format == w;
    }
  }

  /** `compute_score`: one record per sample, in order. Both sub-scores are
      computed on the normalised response. */
  method ComputeScore(g: Grader, batch: seq<Sample>, formatWeight: real) returns (scores: seq<WeightedScore>)
    ensures |scores| == |batch|
    ensures forall i :: 0 <= i < |batch| ==>
      && scores[i].accuracy == SampleAccuracy(g, batch[i])
      && scores[i].format == FormatReward(Normalize(batch[i].response))
      && scores[i].overall == (if scores[i].accuracy == 1.0 then 1.0 - formatWeight else 0.0) + (if scores[i].format == 1.0 then formatWeight else 0.0)
    ensures 0.0 <= formatWeight <= 1.0 ==> forall i :: 0 <= i < |batch| ==> 0.0 <= scores[i].overall <= 1.0
  {
    scores := [];
    var i := 0;
    while i < |batch|
      invariant 0 <= i <= |batch|
      invariant |scores| == i
      invariant forall k :: 0 <= k < i ==> scores[k] == WeightedScoreOf(g, batch[k], formatWeight)
    {
      scores := scores + [WeightedScoreOf(g, batch[i], formatWeight)];
      i := i + 1;
    }
  }

  /** `compute_score` called without a weight: the default 0.1 lies strictly
      inside (0, 1), so every overall score is in [0, 1] and is 1 exactly when
      the answer is right and the format is met. */
  method ComputeScoreWithDefaultWeight(g: Grader, batch: seq<Sample>) returns (scores: seq<WeightedScore>)
    ensures |scores| == |batch|
    ensures forall i :: 0 <= i < |batch| ==>
      && scores[i].accuracy == SampleAccuracy(g, batch[i])
      && scores[i].format == FormatReward(Normalize(batch[i].response))
      && scores[i].overall == 0.9 * scores[i].accuracy + 0.1 * scores[i].format
      && 0.0 <= scores[i].overall <= 1.0
      && (scores[i].overall == 1.0 <==> scores[i].accuracy == 1.0 && scores[i].format == 1.0)
  {
    scores := ComputeScore(g, batch, DefaultFormatWeight);
  }

  // ---------------------------------------------------------------------------
  // Accuracy-only score

  /** `compute_score_wo_format`: one record per sample, in order, whose overall
      score is its accuracy. */
  method ComputeScoreWoFormat(g: Grader, batch: seq<Sample>) returns (scores: seq<AccuracyScore>)
    ensures |scores| == |batch|
    ensures forall i :: 0 <= i < |batch| ==>
      && scores[i].accuracy == SampleAccuracy(g, batch[i])
      && scores[i].overall == scores[i].accuracy
  {
    scores := [];
    var i := 0;
    while i < |batch|
      invariant 0 <= i <= |batch|
      invariant |scores| == i
      invariant forall k :: 0 <= k < i ==> scores[k] == AccuracyScore(SampleAccuracy(g, batch[k]), SampleAccuracy(g, batch[k]))
    {
      var response := Normalize(batch[i].response);
      var accuracyScore := AccuracyReward(g, response, batch[i].groundTruth);
      scores := scores + [AccuracyScore(accuracyScore, accuracyScore)];
      i := i + 1;
    }
  }

  // ---------------------------------------------------------------------------
  // Length-limited score

  /** The record pass 2 builds from one pass-1 record and the batch statistic:
      the accuracy is carried over, and the penalty depends only on the length.
      Without a correct sample in the batch the overall score is the accuracy;
      for an accuracy in {0, 1} it stays in [-1, 1]. */
  function ScoreOf(m: Measurement, hasCorrect: bool, mean: real, hardLimit: int): (r: LengthScore)
    ensures r.accuracy == m.accuracy
    ensures r.rLength == LengthPenalty(m.length, hasCorrect, mean, hardLimit)
    ensures r.overall == r.accuracy + r.rLength
    ensures !hasCorrect ==> r.overall == m.accuracy
    ensures m.accuracy == 0.0 || m.accuracy == 1.0 ==> -1.0 <= r.overall <= 1.0
  {
    var rLength := LengthPenalty(m.length, hasCorrect, mean, hardLimit);
    LengthScore(m.accuracy + rLength, m.accuracy, rLength)
  }

  /** The record sample `x` receives when scored within `batch`. */
  function LengthScoreOf(g: Grader, batch: seq<Sample>, x: Sample, hardLimit: int): (r: LengthScore)
    ensures r.overall == r.accuracy + r.rLength
    ensures -1.0 <= r.overall <= 1.0
    ensures r.accuracy == 0.0 ==> r.overall <= 0.0
    ensures r.accuracy == 1.0 ==> r.overall >= 0.0
  {
    ScoreOf(Measure(g, x), HasCorrect(g, batch), BatchMean(g, batch), hardLimit)
  }

  /** In a batch without a correct sample nobody is penalised and every
      sample scores 0 overall. */
  lemma NoCorrectNoPenalty(g: Grader, batch: seq<Sample>, hardLimit: int)
    requires !HasCorrect(g, batch)
    ensures forall i :: 0 <= i < |batch| ==>
      LengthScoreOf(g, batch, batch[i], hardLimit).rLength == 0.0 && LengthScoreOf(g, batch, batch[i], hardLimit).overall == 0.0
  {
    HasCorrectIff(g, batch);
  }

  /** Reordering a batch changes only which position receives which record:
      every sample's record stays the same. */
  lemma ReorderingKeepsScores(g: Grader, a: seq<Sample>, b: seq<Sample>, x: Sample, hardLimit: int)
    requires multiset(a) == multiset(b)
    ensures LengthScoreOf(g, a, x, hardLimit) == LengthScoreOf(g, b, x, hardLimit)
  {
    BatchMeanPermutation(g, a, b);
  }

  /** In a batch with a correct sample, some correct sample earns the full
      overall score 1. */
  lemma SomeSampleScoresOne(g: Grader, batch: seq<Sample>, hardLimit: int)
    requires HasCorrect(g, batch)
    ensures exists i :: 0 <= i < |batch| && LengthScoreOf(g, batch, batch[i], hardLimit).overall == 1.0
  {
    CorrectSampleWithinMean(g, batch);
    var i :| 0 <= i < |batch| && IsCorrect(g, batch[i]) && |batch[i].response| as real <= BatchMean(g, batch);
    assert LengthScoreOf(g, batch, batch[i], hardLimit).rLength == 0.0;
  }

  /** Pass 1 of `compute_score_wo_format_length_limit`: the accuracy of every
      normalised response with the raw length beside it, in batch order, and the
      raw lengths of the correct samples. */
  method MeasureBatch(g: Grader, batch: seq<Sample>) returns (measured: seq<Measurement>, correctLengths: seq<nat>)
    ensures |measured| == |batch|
    ensures forall k :: 0 <= k < |batch| ==> measured[k] == Measurement(SampleAccuracy(g, batch[k]), |batch[k].response|)
    ensures measured == MeasureAll(g, batch)
    ensures correctLengths == CorrectLengths(measured)
  {
    measured := [];
    correctLengths := [];
    var i := 0;
    while i < |batch|
      invariant 0 <= i <= |batch|
      invariant |measured| == i
      invariant forall k :: 0 <= k < i ==> measured[k] == Measure(g, batch[k])
      invariant correctLengths == CorrectLengths(measured)
    {
      var length := |batch[i].response|;
      var accuracy := SampleAccuracy(g, batch[i]);
      var item := Measurement(accuracy, length);
      assert item == Measure(g, batch[i]);
      CorrectLengthsAppend(measured, [item]);
      CorrectLengthsSingle(item);
      measured := measured + [item];
      correctLengths := correctLengths + (if accuracy == 1.0 then [length] else []);
      i := i + 1;
    }
  }

  /** Pass 2 of `compute_score_wo_format_length_limit`: each pass-1 record,
      in order, with its length penalty added. */
  method PenaliseBatch(measured: seq<Measurement>, hasCorrect: bool, mean: real, hardLimit: int) returns (scores: seq<LengthScore>)
    ensures |scores| == |measured|
    ensures forall k :: 0 <= k < |measured| ==> scores[k] == ScoreOf(measured[k], hasCorrect, mean, hardLimit)
  {
    scores := [];
    var i := 0;
    while i < |measured|
      invariant 0 <= i <= |measured|
      invariant |scores| == i
      invariant forall k :: 0 <= k < i ==> scores[k] == ScoreOf(measured[k], hasCorrect, mean, hardLimit)
    {
      var item := measured[i];
      var rLength := LengthPenalty(item.length, hasCorrect, mean, hardLimit);
      scores := scores + [LengthScore(item.accuracy + rLength, item.accuracy, rLength)];
      i := i + 1;
    }
  }

  /** `compute_score_wo_format_length_limit`. Pass 1 grades every normalised
      response and records the raw length; the mean raw length of the correct
      samples is computed between the passes; pass 2 adds the length penalty.
      The result has one record per sample, in order. */
  method ComputeScoreWoFormatLengthLimit(g: Grader, batch: seq<Sample>, hardLimit: int) returns (scores: seq<LengthScore>)
    ensures |scores| == |batch|
    ensures forall i :: 0 <= i < |batch| ==> scores[i] == LengthScoreOf(g, batch, batch[i], hardLimit)
    ensures forall i :: 0 <= i < |batch| ==>
      && scores[i].accuracy == SampleAccuracy(g, batch[i])
      && scores[i].rLength == LengthPenalty(|batch[i].response|, HasCorrect(g, batch), BatchMean(g, batch), hardLimit)
      && scores[i].overall == scores[i].accuracy + scores[i].rLength
      && -1.0 <= scores[i].overall <= 1.0
    ensures !HasCorrect(g, batch) ==> forall i :: 0 <= i < |batch| ==> scores[i].rLength == 0.0 && scores[i].overall == 0.0
    ensures HasCorrect(g, batch) ==> exists i :: 0 <= i < |batch| && scores[i].overall == 1.0
  {
    var measured, correctLengths := MeasureBatch(g, batch);

    // The batch statistic.
    var hasCorrect := |correctLengths| > 0;
    var mean := 0.0;
    if hasCorrect {
      mean := Sum(correctLengths) as real / |correctLengths| as real;
    }
    assert hasCorrect == HasCorrect(g, batch) && mean == BatchMean(g, batch);

    // Pass 2: penalty and final score.
    scores := PenaliseBatch(measured, hasCorrect, mean, hardLimit);
    forall k | 0 <= k < |batch|
      ensures scores[k] == LengthScoreOf(g, batch, batch[k], hardLimit)
    {
      assert measured[k] == Measure(g, batch[k]);
    }

    if hasCorrect {
      SomeSampleScoresOne(g, batch, hardLimit);
      var j :| 0 <= j < |batch| && LengthScoreOf(g, batch, batch[j], hardLimit).overall == 1.0;
      assert scores[j].overall == 1.0;
    } else {
      NoCorrectNoPenalty(g, batch, hardLimit);
    }
  }

  /** `compute_score_wo_format_length_limit` called without a limit: with the
      default hard limit of 2048 characters, a response of 2048 characters or
      more that is longer than `L_mean` receives the full penalty -1. */
  method ComputeScoreWoFormatLengthLimitWithDefaultLimit(g: Grader, batch: seq<Sample>) returns (scores: seq<LengthScore>)
    ensures |scores| == |batch|
    ensures forall i :: 0 <= i < |batch| ==> scores[i] == LengthScoreOf(g, batch, batch[i], DefaultHardLimit)
    ensures forall i :: 0 <= i < |batch| && HasCorrect(g, batch) && |batch[i].response| >= 2048 && |batch[i].response| as real > BatchMean(g, batch) ==>
      scores[i].rLength == -1.0
  {
    scores := ComputeScoreWoFormatLengthLimit(g, batch, DefaultHardLimit);
  }
}
