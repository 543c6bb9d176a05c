/**
  The format reward: a response earns 1.0 when the whole of it matches
  `<think>.*</think>.*\\boxed\{.*\}.*` with `.` matching newlines, else 0.0.

  The pattern has no leading `.*` and the match is a full match, so the
  response must begin with `<think>`; after that the three literals
  `</think>`, `\boxed{` and `}` must occur in this order without overlapping.
  `FormatReward` decides this by searching each literal at its earliest
  position; `MatchesFormat` states the pattern's language directly, and
  the contract of `FormatReward` shows the two agree.
 */
module FormatCheck {

  /** A search result: a position, or none. */
  datatype Option<T> = None | Some(value: T)

  const ThinkOpen: string := "<think>"
  const ThinkClose: string := "</think>"
  const BoxedOpen: string := "\\boxed{"
  const BoxedClose: string := "}"

  /** `p` occurs in `s` starting at index `i`. */
  predicate OccursAt(s: string, p: string, i: nat) {
    i + |p| <= |s| && s[i..i + |p|] == p
  }

  /** The first occurrence of `p` in `s` at or after `from`, if any. */
  function FindFrom(s: string, p: string, from: nat): (r: Option<nat>)
    ensures r.Some? ==> from <= r.value && OccursAt(s, p, r.value)
    ensures r.Some? ==> forall j: nat :: from <= j < r.value ==> !OccursAt(s, p, j)
    ensures r.None? ==> forall j: nat :: from <= j ==> !OccursAt(s, p, j)
    decreases |s| - from
  {
    if from + |p| > |s| then None
    else if OccursAt(s, p, from) then Some(from)
    else FindFrom(s, p, from + 1)
  }

  /** The language of the pattern, read directly: `<think>` at the start, then
      `</think>`, `\boxed{` and `}` at increasing, non-overlapping positions;
      every gap (and the tail) is arbitrary text. */
  ghost predicate MatchesFormat(s: string) {
    && OccursAt(s, ThinkOpen, 0)
    && exists i: nat, j: nat, m: nat ::
         && |ThinkOpen| <= i && i + |ThinkClose| <= j && j + |BoxedOpen| <= m
         && OccursAt(s, ThinkClose, i) && OccursAt(s, BoxedOpen, j) && OccursAt(s, BoxedClose, m)
  }

  /** The reward of `format_reward`: 1.0 for a full match, else 0.0. The
      earliest-occurrence search loses no match: the reward is 1.0 exactly when
      the response is in the pattern's language. */
  function FormatReward(s: string): (r: real)
    ensures r == 0.0 || r == 1.0
    ensures r == 1.0 <==> MatchesFormat(s)
  {
    if !OccursAt(s, ThinkOpen, 0) then 0.0
    else
      match FindFrom(s, ThinkClose, |ThinkOpen|)
      case None => 0.0
      case Some(i) =>
        match FindFrom(s, BoxedOpen, i + |ThinkClose|)
        case None => 0.0
        case Some(j) =>
          match FindFrom(s, BoxedClose, j + |BoxedOpen|)
          case None => 0.0
          case Some(_) => 1.0
  }
}
