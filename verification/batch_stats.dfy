/**
  Pass 1 of the length-limited scorer and the batch statistic behind its length
  penalty: the mean raw length of the responses graded correct, computed afresh
  for every batch.
 */
module BatchStats {
  import opened Grading

  /** What pass 1 records per sample: its accuracy and its raw length. */
  datatype Measurement = Measurement(accuracy: real, length: nat)

  /** The pass-1 record of one sample: accuracy on the normalised response,
      character length of the raw one. */
  function Measure(g: Grader, x: Sample): Measurement {
    Measurement(SampleAccuracy(g, x), |x.response|)
  }

  /** A pass-1 record holds the raw length, and its accuracy is 0.0 or 1.0,
      1.0 exactly when the sample is correct. */
  lemma MeasureSpec(g: Grader, x: Sample)
    ensures Measure(g, x).length == |x.response|
    ensures Measure(g, x).accuracy == 0.0 || Measure(g, x).accuracy == 1.0
    ensures Measure(g, x).accuracy == 1.0 <==> IsCorrect(g, x)
  {
  }

  /** `f` applied to every element of `xs`, in order. */
  function MapSeq<A, B>(f: A -> B, xs: seq<A>): (ys: seq<B>)
    ensures |ys| == |xs|
  {
    if |xs| == 0 then [] else [f(xs[0])] + MapSeq(f, xs[1..])
  }

  /** The pass-1 records of a whole batch, position by position. */
  function MeasureAll(g: Grader, batch: seq<Sample>): (ms: seq<Measurement>)
    ensures |ms| == |batch|
    ensures forall k :: 0 <= k < |batch| ==> ms[k] == Measure(g, batch[k])
  {
    if |batch| == 0 then [] else [Measure(g, batch[0])] + MeasureAll(g, batch[1..])
  }

  /** `correct_lengths`: the lengths of the records whose accuracy is 1.0, in order. */
  function CorrectLengths(ms: seq<Measurement>): (r: seq<nat>)
    ensures |r| <= |ms|
  {
    if |ms| == 0 then []
    else (if ms[0].accuracy == 1.0 then [ms[0].length] else []) + CorrectLengths(ms[1..])
  }

  function Sum(xs: seq<nat>): nat {
    if |xs| == 0 then 0 else xs[0] + Sum(xs[1..])
  }

  /** Arithmetic mean of `xs`; 0.0 for an empty sequence. */
  function Mean(xs: seq<nat>): (m: real)
    ensures m >= 0.0
    ensures |xs| > 0 ==> m * |xs| as real == Sum(xs) as real
  {
    if |xs| == 0 then 0.0 else Sum(xs) as real / |xs| as real
  }

  /** `has_correct_samples`: the batch holds at least one correct sample. */
  predicate HasCorrect(g: Grader, batch: seq<Sample>) {
    |CorrectLengths(MeasureAll(g, batch))| > 0
  }

  /** `L_mean`: the mean raw length of the correct samples, 0.0 when there are none. */
  function BatchMean(g: Grader, batch: seq<Sample>): (m: real)
    ensures !HasCorrect(g, batch) ==> m == 0.0
    ensures m >= 0.0
  {
    Mean(CorrectLengths(MeasureAll(g, batch)))
  }

  // ---------------------------------------------------------------------------
  // Which lengths are collected

  lemma {:induction false} CorrectLengthsAppend(a: seq<Measurement>, b: seq<Measurement>)
    ensures CorrectLengths(a + b) == CorrectLengths(a) + CorrectLengths(b)
    decreases |a|
  {
    if |a| == 0 {
      assert a + b == b;
    } else {
      var head: seq<nat> := if a[0].accuracy == 1.0 then [a[0].length] else [];
      assert (a + b)[0] == a[0] && (a + b)[1..] == a[1..] + b;
      CorrectLengthsAppend(a[1..], b);
      calc {
        CorrectLengths(a + b);
        head + CorrectLengths(a[1..] + b);
        head + (CorrectLengths(a[1..]) + CorrectLengths(b));
        (head + CorrectLengths(a[1..])) + CorrectLengths(b);
      }
    }
  }

  lemma CorrectLengthsSingle(m: Measurement)
    ensures CorrectLengths([m]) == if m.accuracy == 1.0 then [m.length] else []
  {
    assert [m][1..] == [];
  }

  /** On records: every collected length belongs to a record with accuracy
      1.0, and every such record's length is collected. */
  lemma {:induction false} CorrectLengthsMembership(ms: seq<Measurement>)
    ensures forall k :: 0 <= k < |CorrectLengths(ms)| ==>
              exists i :: 0 <= i < |ms| && ms[i].accuracy == 1.0 && ms[i].length == CorrectLengths(ms)[k]
    ensures forall i :: 0 <= i < |ms| && ms[i].accuracy == 1.0 ==> ms[i].length in CorrectLengths(ms)
    decreases |ms|
  {
    if |ms| > 0 {
      var tail := ms[1..];
      CorrectLengthsMembership(tail);
      var cl := CorrectLengths(ms);
      var head: seq<nat> := if ms[0].accuracy == 1.0 then [ms[0].length] else [];
      assert cl == head + CorrectLengths(tail);
      forall k | 0 <= k < |cl|
        ensures exists i :: 0 <= i < |ms| && ms[i].accuracy == 1.0 && ms[i].length == cl[k]
      {
        if k < |head| {
          assert cl[k] == head[k];
          assert ms[0].accuracy == 1.0 && ms[0].length == cl[k];
        } else {
          assert cl[k] == CorrectLengths(tail)[k - |head|];
          var i :| 0 <= i < |tail| && tail[i].accuracy == 1.0 && tail[i].length == CorrectLengths(tail)[k - |head|];
          assert ms[i + 1] == tail[i];
        }
      }
      forall i | 0 <= i < |ms| && ms[i].accuracy == 1.0
        ensures ms[i].length in cl
      {
        if i > 0 {
          assert ms[i] == tail[i - 1];
        }
      }
    } else {
      assert |CorrectLengths(ms)| == 0;
    }
  }

  /** The positions of the records whose accuracy is 1.0, in increasing order:
      an index-based description of what pass 1 collects, independent of the
      list it builds. */
  function CorrectIndices(ms: seq<Measurement>): (r: seq<nat>)
    ensures forall k :: 0 <= k < |r| ==> r[k] < |ms|
  {
    if |ms| == 0 then []
    else
      var n := |ms| - 1;
      CorrectIndices(ms[..n]) + (if ms[n].accuracy == 1.0 then [n] else [])
  }

  /** `CorrectIndices` lists every correct position, and only those, in
      strictly increasing order. */
  lemma {:induction false} CorrectIndicesSpec(ms: seq<Measurement>)
    ensures forall k :: 0 <= k < |CorrectIndices(ms)| ==> ms[CorrectIndices(ms)[k]].accuracy == 1.0
    ensures forall k, l :: 0 <= k < l < |CorrectIndices(ms)| ==> CorrectIndices(ms)[k] < CorrectIndices(ms)[l]
    ensures forall i :: 0 <= i < |ms| && ms[i].accuracy == 1.0 ==> i in CorrectIndices(ms)
    decreases |ms|
  {
    if |ms| > 0 {
      var n := |ms| - 1;
      var front := ms[..n];
      CorrectIndicesSpec(front);
      var idxFront := CorrectIndices(front);
      var idxLast: seq<nat> := if ms[n].accuracy == 1.0 then [n] else [];
      var idx := CorrectIndices(ms);
      assert idx == idxFront + idxLast;
      forall k | 0 <= k < |idx|
        ensures ms[idx[k]].accuracy == 1.0
      {
        if k < |idxFront| {
          assert idx[k] == idxFront[k] && ms[idx[k]] == front[idx[k]];
        }
      }
      forall i | 0 <= i < |ms| && ms[i].accuracy == 1.0
        ensures i in idx
      {
        if i < n {
          assert front[i] == ms[i];
          var k :| 0 <= k < |idxFront| && idxFront[k] == i;
          assert idx[k] == i;
        } else {
          assert idx[|idxFront|] == i;
        }
      }
    }
  }

  /** One collected length per correct record. */
  lemma {:induction false} CorrectLengthsCount(ms: seq<Measurement>)
    ensures |CorrectLengths(ms)| == |CorrectIndices(ms)|
    decreases |ms|
  {
    if |ms| > 0 {
      var n := |ms| - 1;
      CorrectLengthsCount(ms[..n]);
      assert ms[..n] + [ms[n]] == ms;
      CorrectLengthsAppend(ms[..n], [ms[n]]);
      CorrectLengthsSingle(ms[n]);
    }
  }

  /** The `k`-th collected length is the length of the `k`-th correct record. */
  lemma {:induction false} CorrectLengthAt(ms: seq<Measurement>, k: nat)
    requires k < |CorrectIndices(ms)|
    ensures k < |CorrectLengths(ms)| && CorrectLengths(ms)[k] == ms[CorrectIndices(ms)[k]].length
    decreases |ms|
  {
    var n := |ms| - 1;
    var front := ms[..n];
    CorrectLengthsCount(ms);
    CorrectLengthsCount(front);
    assert front + [ms[n]] == ms;
    CorrectLengthsAppend(front, [ms[n]]);
    CorrectLengthsSingle(ms[n]);
    var idxFront := CorrectIndices(front);
    var idx := CorrectIndices(ms);
    assert idx == idxFront + (if ms[n].accuracy == 1.0 then [n] else []);
    if k < |idxFront| {
      CorrectLengthAt(front, k);
      assert idx[k] == idxFront[k];
      assert ms[idx[k]] == front[idx[k]];
    }
  }

  /** The collected list has one entry per correct record, in batch order:
      its `k`-th entry is the length of the `k`-th correct record. So its
      length counts the correct records and its sum adds up their lengths. */
  lemma CorrectLengthsIndexed(ms: seq<Measurement>)
    ensures |CorrectLengths(ms)| == |CorrectIndices(ms)|
    ensures forall k :: 0 <= k < |CorrectIndices(ms)| ==> CorrectLengths(ms)[k] == ms[CorrectIndices(ms)[k]].length
  {
    CorrectLengthsCount(ms);
    forall k | 0 <= k < |CorrectIndices(ms)|
      ensures CorrectLengths(ms)[k] == ms[CorrectIndices(ms)[k]].length
    {
      CorrectLengthAt(ms, k);
    }
  }

  /** The same on samples: the `k`-th collected length is the raw length of the
      `k`-th correct sample of the batch, and the collected list skips no
      correct sample. */
  lemma CollectedInBatchOrder(g: Grader, batch: seq<Sample>)
    ensures var idx := CorrectIndices(MeasureAll(g, batch));
      && |CorrectLengths(MeasureAll(g, batch))| == |idx|
      && (forall k :: 0 <= k < |idx| ==>
            idx[k] < |batch| && IsCorrect(g, batch[idx[k]])
            && CorrectLengths(MeasureAll(g, batch))[k] == |batch[idx[k]].response|)
      && (forall k, l :: 0 <= k < l < |idx| ==> idx[k] < idx[l])
      && (forall i :: 0 <= i < |batch| && IsCorrect(g, batch[i]) ==> i in idx)
  {
    var ms := MeasureAll(g, batch);
    CorrectLengthsIndexed(ms);
    CorrectIndicesSpec(ms);
    var idx := CorrectIndices(ms);
    forall i | 0 <= i < |batch| && IsCorrect(g, batch[i])
      ensures i in idx
    {
      assert ms[i] == Measure(g, batch[i]);
    }
    forall k | 0 <= k < |idx|
      ensures IsCorrect(g, batch[idx[k]]) && CorrectLengths(ms)[k] == |batch[idx[k]].response|
    {
      assert ms[idx[k]] == Measure(g, batch[idx[k]]);
    }
  }

  /** The `k`-th collected length is the raw length of a correct sample. */
  lemma CollectedIsCorrect(g: Grader, batch: seq<Sample>, k: nat)
    requires k < |CorrectLengths(MeasureAll(g, batch))|
    ensures exists i :: 0 <= i < |batch| && IsCorrect(g, batch[i]) && |batch[i].response| == CorrectLengths(MeasureAll(g, batch))[k]
  {
    var ms := MeasureAll(g, batch);
    CorrectLengthsCount(ms);
    CorrectLengthAt(ms, k);
    CorrectIndicesSpec(ms);
    var i := CorrectIndices(ms)[k];
    assert ms[i] == Measure(g, batch[i]);
  }

  /** The raw length of a correct sample is collected. */
  lemma CorrectIsCollected(g: Grader, batch: seq<Sample>, i: nat)
    requires i < |batch| && IsCorrect(g, batch[i])
    ensures |batch[i].response| in CorrectLengths(MeasureAll(g, batch))
  {
    var ms := MeasureAll(g, batch);
    CorrectLengthsMembership(ms);
    assert ms[i] == Measure(g, batch[i]);
  }

  /** `has_correct_samples` holds exactly when some sample is correct. */
  lemma HasCorrectIff(g: Grader, batch: seq<Sample>)
    ensures HasCorrect(g, batch) <==> exists i :: 0 <= i < |batch| && IsCorrect(g, batch[i])
  {
    if HasCorrect(g, batch) {
      CollectedIsCorrect(g, batch, 0);
    }
    if i :| 0 <= i < |batch| && IsCorrect(g, batch[i]) {
      CorrectIsCollected(g, batch, i);
    }
  }

  // ---------------------------------------------------------------------------
  // Order independence

  lemma {:induction false} SumAppend(a: seq<nat>, b: seq<nat>)
    ensures Sum(a + b) == Sum(a) + Sum(b)
    decreases |a|
  {
    if |a| == 0 {
      assert a + b == b;
    } else {
      assert (a + b)[0] == a[0] && (a + b)[1..] == a[1..] + b;
      SumAppend(a[1..], b);
    }
  }

  /** Taking the first element of `a` out of `b` keeps the two multisets equal. */
  lemma RemoveMatching<T>(a: seq<T>, b: seq<T>, k: nat)
    requires multiset(a) == multiset(b)
    requires |a| > 0 && k < |b| && b[k] == a[0]
    ensures multiset(a[1..]) == multiset(b[..k] + b[k + 1..])
  {
    assert a == [a[0]] + a[1..];
    assert b == b[..k] + [b[k]] + b[k + 1..];
    var x := multiset{a[0]};
    calc {
      multiset(a[1..]);
      multiset(a) - x;
      multiset(b) - x;
      (multiset(b[..k]) + x + multiset(b[k + 1..])) - x;
      multiset(b[..k]) + multiset(b[k + 1..]);
      multiset(b[..k] + b[k + 1..]);
    }
  }

  /** The sum of a sequence depends only on its elements, not their order. */
  lemma {:induction false} SumPermutation(a: seq<nat>, b: seq<nat>)
    requires multiset(a) == multiset(b)
    ensures Sum(a) == Sum(b)
    decreases |a|
  {
    if |a| == 0 {
      assert |b| == |multiset(b)| == 0;
    } else {
      assert a[0] in multiset(b);
      var k :| 0 <= k < |b| && b[k] == a[0];
      var rest := b[..k] + b[k + 1..];
      RemoveMatching(a, b, k);
      SumPermutation(a[1..], rest);
      assert b == b[..k] + ([b[k]] + b[k + 1..]);
      SumAppend(b[..k], [b[k]] + b[k + 1..]);
      assert ([b[k]] + b[k + 1..])[1..] == b[k + 1..];
      SumAppend(b[..k], b[k + 1..]);
    }
  }

  /** Taking record `k` out of `ms` takes its collected length (if any) out
      of the collected lengths. */
  lemma CorrectLengthsWithout(ms: seq<Measurement>, k: nat)
    requires k < |ms|
    ensures multiset(CorrectLengths(ms)) == multiset(CorrectLengths([ms[k]])) + multiset(CorrectLengths(ms[..k] + ms[k + 1..]))
  {
    assert ms[..k] + ms[k..] == ms;
    CorrectLengthsAppend(ms[..k], ms[k..]);
    assert ms[k..][0] == ms[k] && ms[k..][1..] == ms[k + 1..];
    CorrectLengthsSingle(ms[k]);
    CorrectLengthsAppend(ms[..k], ms[k + 1..]);
  }

  /** Reordering the records reorders the collected lengths and nothing more. */
  lemma {:induction false} CorrectLengthsPermutation(a: seq<Measurement>, b: seq<Measurement>)
    requires multiset(a) == multiset(b)
    ensures multiset(CorrectLengths(a)) == multiset(CorrectLengths(b))
    decreases |a|
  {
    if |a| == 0 {
      assert |b| == |multiset(b)| == 0;
    } else {
      assert a[0] in multiset(b);
      var k :| 0 <= k < |b| && b[k] == a[0];
      RemoveMatching(a, b, k);
      CorrectLengthsPermutation(a[1..], b[..k] + b[k + 1..]);
      CorrectLengthsWithout(a, 0);
      assert a[..0] + a[1..] == a[1..];
      CorrectLengthsWithout(b, k);
    }
  }

  lemma {:induction false} MapSeqAppend<A, B>(f: A -> B, a: seq<A>, b: seq<A>)
    ensures MapSeq(f, a + b) == MapSeq(f, a) + MapSeq(f, b)
    decreases |a|
  {
    if |a| == 0 {
      assert a + b == b;
    } else {
      assert (a + b)[0] == a[0] && (a + b)[1..] == a[1..] + b;
      MapSeqAppend(f, a[1..], b);
      calc {
        MapSeq(f, a + b);
        [f(a[0])] + MapSeq(f, a[1..] + b);
        [f(a[0])] + (MapSeq(f, a[1..]) + MapSeq(f, b));
        ([f(a[0])] + MapSeq(f, a[1..])) + MapSeq(f, b);
      }
    }
  }

  /** Measuring a batch is mapping any function that agrees with `Measure`. */
  lemma {:induction false} MeasureAllIsMap(g: Grader, f: Sample -> Measurement, batch: seq<Sample>)
    requires forall x :: f(x) == Measure(g, x)
    ensures MeasureAll(g, batch) == MapSeq(f, batch)
    decreases |batch|
  {
    if |batch| > 0 {
      MeasureAllIsMap(g, f, batch[1..]);
    }
  }

  /** Taking element `k` out of `xs` takes its image out of the map. */
  lemma MapSeqWithout<A, B>(f: A -> B, xs: seq<A>, k: nat)
    requires k < |xs|
    ensures multiset(MapSeq(f, xs)) == multiset{f(xs[k])} + multiset(MapSeq(f, xs[..k] + xs[k + 1..]))
  {
    assert xs[..k] + xs[k..] == xs;
    MapSeqAppend(f, xs[..k], xs[k..]);
    assert xs[k..][0] == xs[k] && xs[k..][1..] == xs[k + 1..];
    assert MapSeq(f, xs[k..]) == [f(xs[k])] + MapSeq(f, xs[k + 1..]);
    MapSeqAppend(f, xs[..k], xs[k + 1..]);
  }

  /** Reordering the input of a map reorders its output and nothing more. */
  lemma {:induction false} MapSeqPermutation<A, B>(f: A -> B, a: seq<A>, b: seq<A>)
    requires multiset(a) == multiset(b)
    ensures multiset(MapSeq(f, a)) == multiset(MapSeq(f, b))
    decreases |a|
  {
    if |a| == 0 {
      assert |b| == |multiset(b)| == 0;
    } else {
      assert a[0] in multiset(b);
      var k :| 0 <= k < |b| && b[k] == a[0];
      RemoveMatching(a, b, k);
      MapSeqPermutation(f, a[1..], b[..k] + b[k + 1..]);
      MapSeqWithout(f, a, 0);
      assert a[..0] + a[1..] == a[1..];
      MapSeqWithout(f, b, k);
    }
  }

  /** `has_correct_samples` and `L_mean` do not depend on the order of the batch. */
  lemma BatchMeanPermutation(g: Grader, a: seq<Sample>, b: seq<Sample>)
    requires multiset(a) == multiset(b)
    ensures HasCorrect(g, a) <==> HasCorrect(g, b)
    ensures BatchMean(g, a) == BatchMean(g, b)
  {
    var f := (x: Sample) => Measure(g, x);
    MeasureAllIsMap(g, f, a);
    MeasureAllIsMap(g, f, b);
    MapSeqPermutation(f, a, b);
    var ca, cb := CorrectLengths(MeasureAll(g, a)), CorrectLengths(MeasureAll(g, b));
    CorrectLengthsPermutation(MeasureAll(g, a), MeasureAll(g, b));
    assert |ca| == |multiset(ca)| == |multiset(cb)| == |cb|;
    SumPermutation(ca, cb);
  }

  // ---------------------------------------------------------------------------
  // Some correct sample is no longer than the mean

  lemma {:induction false} SumAbove(xs: seq<nat>, m: real)
    ensures |xs| > 0 && (forall k :: 0 <= k < |xs| ==> xs[k] as real > m) ==> Sum(xs) as real > |xs| as real * m
    decreases |xs|
  {
    if |xs| > 1 {
      SumAbove(xs[1..], m);
      assert |xs| as real * m == m + (|xs| - 1) as real * m;
    }
  }

  /** A non-empty sequence has an element no larger than its mean. */
  lemma SomeAtMostMean(xs: seq<nat>)
    requires |xs| > 0
    ensures exists k :: 0 <= k < |xs| && xs[k] as real <= Mean(xs)
  {
    SumAbove(xs, Mean(xs));
  }

  /** When the batch has a correct sample, some correct sample is no longer
      than `L_mean`. */
  lemma CorrectSampleWithinMean(g: Grader, batch: seq<Sample>)
    requires HasCorrect(g, batch)
    ensures exists i :: 0 <= i < |batch| && IsCorrect(g, batch[i]) && |batch[i].response| as real <= BatchMean(g, batch)
  {
    var cl := CorrectLengths(MeasureAll(g, batch));
    SomeAtMostMean(cl);
    var k :| 0 <= k < |cl| && cl[k] as real <= Mean(cl);
    CollectedIsCorrect(g, batch, k);
    var i :| 0 <= i < |batch| && IsCorrect(g, batch[i]) && |batch[i].response| == cl[k];
  }
}
