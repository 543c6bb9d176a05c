/**
  The length penalty `R_length` of the length-limited scorer ("dynamic safe
  zone"): responses no longer than the batch's mean correct length are not
  penalised; longer ones are penalised along a linear ramp that reaches -1 at
  the hard length limit and stays there beyond it.
 */
module Penalty {

  /** `L_MAX_HARD_LIMIT`'s default value. */
  const DefaultHardLimit: int := 2048

  /** The larger of `a` and `b`, as Python's `max`. */
  function Max(a: real, b: real): real {
    if a >= b then a else b
  }

  /** `R_length` for a response of `length` characters, given whether the batch
      has a correct sample, the batch mean `mean` and the hard limit. Strictly
      between the mean and the hard limit the penalty is the unclamped linear
      ramp, strictly between -1 and 0. */
  function LengthPenalty(length: nat, hasCorrect: bool, mean: real, hardLimit: int): (r: real)
    ensures -1.0 <= r <= 0.0
    ensures r == 0.0 <==> !hasCorrect || length as real <= mean
    ensures r == -1.0 <==> hasCorrect && length as real > mean && length >= hardLimit
    ensures hasCorrect && mean < length as real && length < hardLimit ==>
      r == (mean - length as real) / (hardLimit as real - mean)
  {
    if !hasCorrect then 0.0
    else if length as real <= mean then 0.0
    else if mean >= hardLimit as real then -1.0
    else
      RampRange(length, mean, hardLimit);
      Max((mean - length as real) / (hardLimit as real - mean), -1.0)
  }

  /** Past the mean and below a hard limit above it, the ramp is negative and
      reaches -1 exactly at the hard limit. */
  lemma RampRange(length: nat, mean: real, hardLimit: int)
    requires mean < length as real && mean < hardLimit as real
    ensures (mean - length as real) / (hardLimit as real - mean) < 0.0
    ensures (mean - length as real) / (hardLimit as real - mean) < -1.0 <==> length > hardLimit
    ensures (mean - length as real) / (hardLimit as real - mean) == -1.0 <==> length == hardLimit
  {
    var d := hardLimit as real - mean;
    var p := (mean - length as real) / d;
    assert p * d == mean - length as real;
    assert (p + 1.0) * d == hardLimit as real - length as real;
    if p + 1.0 < 0.0 {
      assert (p + 1.0) * d < 0.0;
    } else if p + 1.0 > 0.0 {
      assert (p + 1.0) * d > 0.0;
    }
  }

  /** For a fixed batch, a longer response is never penalised less. */
  lemma PenaltyMonotone(shorter: nat, longer: nat, hasCorrect: bool, mean: real, hardLimit: int)
    requires shorter <= longer
    ensures LengthPenalty(longer, hasCorrect, mean, hardLimit) <= LengthPenalty(shorter, hasCorrect, mean, hardLimit)
  {
    if hasCorrect && mean < longer as real && mean < hardLimit as real {
      var d := hardLimit as real - mean;
      var ps := (mean - shorter as real) / d;
      var pl := (mean - longer as real) / d;
      assert ps * d == mean - shorter as real;
      assert pl * d == mean - longer as real;
      assert (ps - pl) * d == longer as real - shorter as real;
      assert pl <= ps;
    }
  }
}
