/**
  One scoring input and the accuracy reward.

  The answer extractor and the semantic grader belong to an external
  mathematics-grading library whose code is not part of this model; they are
  passed in as uninterpreted functions bundled in a `Grader`.
 */
module Grading {
  import opened Normalization

  /** One entry of the batch: the model's response and the reference answer. */
  datatype Sample = Sample(response: string, groundTruth: string)

  /** The external collaborators: `extract` pulls the boxed final answer out of
      a response, `grade` decides whether a candidate answer is equivalent to
      the ground truth. */
  datatype Grader = Grader(extract: string -> string, grade: (string, string) -> bool)

  /** The reward of `accuracy_reward`: 1.0 when `grade` accepts the answer
      extracted from `response`, else 0.0. */
  function AccuracyReward(g: Grader, response: string, groundTruth: string): (r: real)
    ensures r == 0.0 || r == 1.0
    ensures r == 1.0 <==> g.grade(g.extract(response), groundTruth)
  {
    if g.grade(g.extract(response), groundTruth) then 1.0 else 0.0
  }

  /** The accuracy every scorer records for a sample: graded on the normalised
      response, never on the raw one. */
  function SampleAccuracy(g: Grader, x: Sample): (r: real)
    ensures r == 0.0 || r == 1.0
    ensures r == 1.0 <==> g.grade(g.extract(Normalize(x.response)), x.groundTruth)
  {
    AccuracyReward(g, Normalize(x.response), x.groundTruth)
  }

  /** A sample counts as correct when its accuracy equals 1.0. */
  predicate IsCorrect(g: Grader, x: Sample) {
    SampleAccuracy(g, x) == 1.0
  }
}
