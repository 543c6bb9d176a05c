/**
  The response clean-up every scorer applies before grading: the substitution
  `\s*(<|>|/)\s*  ->  \1`, which deletes the whitespace on both sides of each
  `<`, `>` and `/` (so `< think >` becomes `<think>` and `</ think>` becomes
  `</think>`).

  `Normalize` follows the left-to-right scan of the regular-expression
  substitution. `Tighten` is an independent, per-character reading of the same
  rule, and the lemmas below show that the two agree, that only whitespace is
  ever removed, that the result has no whitespace next to a delimiter, and that
  normalising is idempotent.
 */
module Normalization {

  /** The characters the regular-expression class `\s` matches on text:
      Python's Unicode whitespace. */
  predicate IsSpace(c: char) {
    || c == ' ' || c == '\t' || c == '\n' || c == '\r' || c == '\U{B}' || c == '\U{C}'
    || ('\U{1C}' <= c <= '\U{1F}')
    || c == '\U{85}' || c == '\U{A0}' || c == '\U{1680}'
    || ('\U{2000}' <= c <= '\U{200A}')
    || c == '\U{2028}' || c == '\U{2029}' || c == '\U{202F}' || c == '\U{205F}' || c == '\U{3000}'
  }

  /** The characters the substitution's group `(<|>|/)` captures. */
  predicate IsDelim(c: char) {
    c == '<' || c == '>' || c == '/'
  }

  /** Length of the longest prefix of `s` made only of whitespace. */
  function SpacePrefix(s: string): (n: nat)
    ensures n <= |s|
    ensures forall j :: 0 <= j < n ==> IsSpace(s[j])
    ensures n < |s| ==> !IsSpace(s[n])
  {
    if |s| == 0 || !IsSpace(s[0]) then 0 else 1 + SpacePrefix(s[1..])
  }

  /** The substitution as the regular-expression engine performs it. At the
      current position the greedy `\s*` takes the whole whitespace run; if a
      delimiter follows, the run, the delimiter and the whitespace run after
      it are replaced by the delimiter alone and the scan resumes after them.
      Otherwise no match starts here: the current character is copied and the
      scan moves on by one. */
  function Normalize(s: string): (r: string)
    ensures |r| <= |s|
    decreases |s|
  {
    if |s| == 0 then []
    else
      var k := SpacePrefix(s);
      if k < |s| && IsDelim(s[k]) then
        var after := s[k + 1..];
        [s[k]] + Normalize(after[SpacePrefix(after)..])
      else
        [s[0]] + Normalize(s[1..])
  }

  /** `s` starts with a (possibly empty) whitespace run that ends in a delimiter. */
  predicate ReachesDelim(s: string) {
    |s| > 0 && (IsDelim(s[0]) || (IsSpace(s[0]) && ReachesDelim(s[1..])))
  }

  /** Per-character reading of the substitution: a whitespace character is
      dropped exactly when the whitespace run it belongs to touches a delimiter,
      either on its left (`afterDelim`) or on its right (`ReachesDelim`); every
      other character is kept, in order. */
  function Tighten(s: string, afterDelim: bool): (r: string)
    ensures |r| <= |s|
  {
    if |s| == 0 then []
    else if IsSpace(s[0]) && (afterDelim || ReachesDelim(s)) then Tighten(s[1..], afterDelim)
    else [s[0]] + Tighten(s[1..], IsDelim(s[0]))
  }

  /** Two neighbouring characters the substitution would join. */
  predicate Clash(a: char, b: char) {
    (IsSpace(a) && IsDelim(b)) || (IsDelim(a) && IsSpace(b))
  }

  /** No whitespace immediately before or after a delimiter. */
  predicate Tight(s: string) {
    forall i :: 0 <= i < |s| - 1 ==> !Clash(s[i], s[i + 1])
  }

  /** `t` is `s` with some whitespace characters deleted and nothing else changed. */
  ghost predicate SpaceDeletion(t: string, s: string)
    decreases |s|
  {
    if |s| == 0 then |t| == 0
    else
      || (|t| > 0 && t[0] == s[0] && SpaceDeletion(t[1..], s[1..]))
      || (IsSpace(s[0]) && SpaceDeletion(t, s[1..]))
  }

  /** The non-whitespace characters of `s`, in order. */
  function NonSpaces(s: string): (r: string)
    ensures forall c :: c in r ==> c in s && !IsSpace(c)
  {
    if |s| == 0 then []
    else if IsSpace(s[0]) then NonSpaces(s[1..])
    else [s[0]] + NonSpaces(s[1..])
  }

  // ---------------------------------------------------------------------------
  // Agreement of the scan with the per-character rule

  lemma {:induction false} ReachesDelimIff(s: string)
    ensures ReachesDelim(s) <==> SpacePrefix(s) < |s| && IsDelim(s[SpacePrefix(s)])
    decreases |s|
  {
    if |s| > 0 && IsSpace(s[0]) {
      ReachesDelimIff(s[1..]);
      assert SpacePrefix(s) == 1 + SpacePrefix(s[1..]);
    }
  }

  lemma {:induction false} SkipPrefix(s: string)
    requires |s| > 0 && IsSpace(s[0])
    ensures SpacePrefix(s) == 1 + SpacePrefix(s[1..])
    ensures s[SpacePrefix(s)..] == s[1..][SpacePrefix(s[1..])..]
  {
  }

  /** After a delimiter the whole whitespace run is dropped. */
  lemma {:induction false} TightenAfterDelim(s: string)
    ensures Tighten(s, true) == Tighten(s[SpacePrefix(s)..], false)
    decreases |s|
  {
    if |s| > 0 && IsSpace(s[0]) {
      TightenAfterDelim(s[1..]);
      SkipPrefix(s);
    }
  }

  /** A whitespace run that ends in a delimiter is dropped. */
  lemma {:induction false} TightenBeforeDelim(s: string)
    requires ReachesDelim(s)
    ensures Tighten(s, false) == Tighten(s[SpacePrefix(s)..], false)
    decreases |s|
  {
    if !IsDelim(s[0]) {
      TightenBeforeDelim(s[1..]);
      SkipPrefix(s);
    }
  }

  /** The left-to-right substitution removes exactly the whitespace the
      per-character rule says it removes. */
  lemma {:induction false} NormalizeIsTighten(s: string)
    ensures Normalize(s) == Tighten(s, false)
    decreases |s|
  {
    if |s| > 0 {
      ReachesDelimIff(s);
      var k := SpacePrefix(s);
      if ReachesDelim(s) {
        var after := s[k + 1..];
        var rest := after[SpacePrefix(after)..];
        TightenBeforeDelim(s);
        assert s[k..][1..] == after;
        TightenAfterDelim(after);
        NormalizeIsTighten(rest);
      } else {
        NormalizeIsTighten(s[1..]);
      }
    }
  }

  // ---------------------------------------------------------------------------
  // Only whitespace is removed

  lemma {:induction false} TightenDeletesSpaces(s: string, afterDelim: bool)
    ensures SpaceDeletion(Tighten(s, afterDelim), s)
    decreases |s|
  {
    if |s| > 0 {
      TightenDeletesSpaces(s[1..], afterDelim);
      TightenDeletesSpaces(s[1..], IsDelim(s[0]));
      if !(IsSpace(s[0]) && (afterDelim || ReachesDelim(s))) {
        var t := Tighten(s, afterDelim);
        assert t[1..] == Tighten(s[1..], IsDelim(s[0]));
      }
    }
  }

  /** A whitespace deletion keeps every other character, in order. */
  lemma {:induction false} SpaceDeletionKeepsNonSpaces(t: string, s: string)
    requires SpaceDeletion(t, s)
    ensures NonSpaces(t) == NonSpaces(s)
    ensures |t| <= |s|
    decreases |s|
  {
    if |s| > 0 {
      if |t| > 0 && t[0] == s[0] && SpaceDeletion(t[1..], s[1..]) {
        SpaceDeletionKeepsNonSpaces(t[1..], s[1..]);
      } else {
        SpaceDeletionKeepsNonSpaces(t, s[1..]);
      }
    }
  }

  /** Normalising deletes whitespace only: every other character of the
      response survives, in its original order. */
  lemma NormalizeDeletesOnlySpaces(s: string)
    ensures SpaceDeletion(Normalize(s), s)
    ensures NonSpaces(Normalize(s)) == NonSpaces(s)
  {
    NormalizeIsTighten(s);
    TightenDeletesSpaces(s, false);
    SpaceDeletionKeepsNonSpaces(Normalize(s), s);
  }

  // ---------------------------------------------------------------------------
  // The result is tight

  lemma TightCons(c: char, t: string)
    requires Tight(t)
    requires |t| == 0 || !Clash(c, t[0])
    ensures Tight([c] + t)
  {
    var s := [c] + t;
    forall i | 0 <= i < |s| - 1
      ensures !Clash(s[i], s[i + 1])
    {
      if i > 0 {
        assert s[i] == t[i - 1] && s[i + 1] == t[i];
      }
    }
  }

  lemma TightTail(s: string)
    requires Tight(s) && |s| > 0
    ensures Tight(s[1..])
    ensures |s| > 1 ==> !Clash(s[0], s[1])
  {
    var t := s[1..];
    forall i | 0 <= i < |t| - 1
      ensures !Clash(t[i], t[i + 1])
    {
      assert t[i] == s[i + 1] && t[i + 1] == s[i + 2];
    }
  }

  /** After a delimiter the first kept character is never whitespace. */
  lemma {:induction false} TightenAfterDelimHead(s: string)
    ensures |Tighten(s, true)| > 0 ==> !IsSpace(Tighten(s, true)[0])
    decreases |s|
  {
    if |s| > 0 && IsSpace(s[0]) {
      TightenAfterDelimHead(s[1..]);
    }
  }

  lemma {:induction false} TightenIsTight(s: string, afterDelim: bool)
    ensures Tight(Tighten(s, afterDelim))
    decreases |s|
  {
    if |s| > 0 {
      var d := IsDelim(s[0]);
      TightenIsTight(s[1..], afterDelim);
      TightenIsTight(s[1..], d);
      if !(IsSpace(s[0]) && (afterDelim || ReachesDelim(s))) {
        var t := Tighten(s[1..], d);
        if d {
          TightenAfterDelimHead(s[1..]);
        } else if IsSpace(s[0]) && |s| > 1 {
          // The run is not followed by a delimiter, so the next kept
          // character is `s[1]` itself, which is not a delimiter.
          assert !ReachesDelim(s[1..]);
          assert !IsDelim(s[1]);
          assert t[0] == s[1];
        }
        TightCons(s[0], t);
      }
    }
  }

  /** Normalising leaves no whitespace immediately before or after a `<`, `>` or `/`. */
  lemma {:induction false} NormalizeIsTight(s: string)
    ensures Tight(Normalize(s))
  {
    NormalizeIsTighten(s);
    TightenIsTight(s, false);
  }

  // ---------------------------------------------------------------------------
  // Fixed points and idempotence

  lemma {:induction false} TightSpaceNotReaching(s: string)
    requires Tight(s) && |s| > 0 && IsSpace(s[0])
    ensures !ReachesDelim(s)
    decreases |s|
  {
    TightTail(s);
    if |s| > 1 && IsSpace(s[1]) {
      TightSpaceNotReaching(s[1..]);
    }
  }

  lemma {:induction false} TightenKeepsTight(s: string, afterDelim: bool)
    requires Tight(s)
    requires afterDelim && |s| > 0 ==> !IsSpace(s[0])
    ensures Tighten(s, afterDelim) == s
    decreases |s|
  {
    if |s| > 0 {
      TightTail(s);
      if IsSpace(s[0]) {
        TightSpaceNotReaching(s);
      }
      TightenKeepsTight(s[1..], IsDelim(s[0]));
    }
  }

  /** A response is left unchanged by the substitution exactly when it is tight. */
  lemma {:induction false} NormalizeFixedIff(s: string)
    ensures Normalize(s) == s <==> Tight(s)
  {
    NormalizeIsTighten(s);
    NormalizeIsTight(s);
    if Tight(s) {
      TightenKeepsTight(s, false);
    }
  }

  /** Normalising twice gives the same text as normalising once. */
  lemma {:induction false} NormalizeIdempotent(s: string)
    ensures Normalize(Normalize(s)) == Normalize(s)
  {
    NormalizeIsTight(s);
    NormalizeFixedIff(Normalize(s));
  }
}
