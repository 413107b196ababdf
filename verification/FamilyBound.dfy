/** The simultaneous non-regression bound: one bootstrap of the family maximum bounds every
    metric's own bootstrap on the same resamples.  The index matrix is an arbitrary input. */
module FamilyBound {
  import opened OrderStatistics

  /** One protected metric: its transformed scores and its transformed margin. */
  datatype Metric = Metric(scores: seq<real>, margin: real)

  function Sum(xs: seq<real>): real {
    if xs == [] then 0.0 else Sum(xs[..|xs| - 1]) + xs[|xs| - 1]
  }

  function Mean(xs: seq<real>): real
    requires xs != []
  {
    Sum(xs) / |xs| as real
  }

  ghost predicate Indexes(resample: seq<nat>, n: nat) {
    resample != [] && forall i :: 0 <= i < |resample| ==> resample[i] < n
  }

  ghost predicate Matrix(resamples: seq<seq<nat>>, n: nat) {
    resamples != [] && forall b :: 0 <= b < |resamples| ==> Indexes(resamples[b], n)
  }

  /** `scores[indices]` for one row of the index matrix. */
  function Pick(scores: seq<real>, resample: seq<nat>): (r: seq<real>)
    requires Indexes(resample, |scores|)
    ensures |r| == |resample| && forall i :: 0 <= i < |r| ==> r[i] == scores[resample[i]]
  {
    seq(|resample|, i requires 0 <= i < |resample| => scores[resample[i]])
  }

  /** The resampled means of a metric. */
  function Means(scores: seq<real>, resamples: seq<seq<nat>>): (r: seq<real>)
    requires Matrix(resamples, |scores|)
    ensures |r| == |resamples| && forall b :: 0 <= b < |r| ==> r[b] == Mean(Pick(scores, resamples[b]))
  {
    seq(|resamples|, b requires 0 <= b < |resamples| => Mean(Pick(scores, resamples[b])))
  }

  ghost predicate Aligned(family: seq<Metric>, n: nat) {
    family != [] && forall m :: m in family ==> |m.scores| == n
  }

  /** The resampled means of `scores - margin`. */
  function Excesses(m: Metric, resamples: seq<seq<nat>>): (r: seq<real>)
    requires Matrix(resamples, |m.scores|)
    ensures |r| == |resamples|
  {
    Means(Shifted(m.scores, m.margin), resamples)
  }

  /** The maximum over the family, resample by resample. */
  function Maxima(family: seq<Metric>, n: nat, resamples: seq<seq<nat>>): (r: seq<real>)
    requires Aligned(family, n) && Matrix(resamples, n)
    ensures |r| == |resamples|
  {
    assert family[0] in family;
    var first := Excesses(family[0], resamples);
    if |family| == 1 then first
    else
      assert forall m :: m in family[1..] ==> m in family;
      var rest := Maxima(family[1..], n, resamples);
      seq(|resamples|, b requires 0 <= b < |resamples| => Max(first[b], rest[b]))
  }

  /** `paired_max_statistic_upper_bound`. */
  function UpperBound(family: seq<Metric>, n: nat, resamples: seq<seq<nat>>, confidence: real): real
    requires Aligned(family, n) && Matrix(resamples, n) && 0.0 <= confidence <= 1.0
  {
    Percentile(Maxima(family, n, resamples), confidence * 100.0)
  }

  lemma {:induction false} MaximaDominate(family: seq<Metric>, n: nat, resamples: seq<seq<nat>>, k: nat)
    requires Aligned(family, n) && Matrix(resamples, n) && k < |family|
    ensures family[k] in family
    ensures forall b :: 0 <= b < |resamples| ==> Excesses(family[k], resamples)[b] <= Maxima(family, n, resamples)[b]
  {
    hide Excesses;
    if k > 0 {
      assert forall m :: m in family[1..] ==> m in family;
      MaximaDominate(family[1..], n, resamples, k - 1);
    }
  }

  lemma {:induction false} SumShifted(xs: seq<real>, c: real)
    ensures Sum(Shifted(xs, c)) == Sum(xs) - |xs| as real * c
  {
    if xs != [] {
      var init := xs[..|xs| - 1];
      SumShifted(init, c);
      assert Shifted(xs, c)[..|xs| - 1] == Shifted(init, c);
      assert |xs| as real * c == |init| as real * c + c;
    }
  }

  lemma QuotientShifted(x: real, n: real, c: real)
    requires n > 0.0
    ensures (x - n * c) / n == x / n - c
  {
    var q, r := x / n, (x - n * c) / n;
    assert q * n == x && r * n == x - n * c;
    assert (r - (q - c)) * n == 0.0;
  }

  lemma MeanShifted(xs: seq<real>, c: real)
    requires xs != []
    ensures Mean(Shifted(xs, c)) == Mean(xs) - c
  {
    SumShifted(xs, c);
    var n := |xs| as real;
    QuotientShifted(Sum(xs), n, c);
    var shifted := Shifted(xs, c);
    assert Mean(shifted) == Sum(shifted) / n;
  }

  lemma ExcessesShifted(m: Metric, resamples: seq<seq<nat>>)
    requires Matrix(resamples, |m.scores|)
    ensures Excesses(m, resamples) == Shifted(Means(m.scores, resamples), m.margin)
  {
    hide Mean, Shifted, Pick;
    forall b | 0 <= b < |resamples|
      ensures Mean(Pick(Shifted(m.scores, m.margin), resamples[b])) == Mean(Pick(m.scores, resamples[b])) - m.margin
    {
      var picked := Pick(m.scores, resamples[b]);
      assert Pick(Shifted(m.scores, m.margin), resamples[b]) == Shifted(picked, m.margin);
      MeanShifted(picked, m.margin);
    }
  }

  /** The family bound is at least every metric's own percentile of (resampled mean − margin) on the
      same resamples, so a bound within a tolerance puts every metric within it. */
  lemma FamilyDominates(family: seq<Metric>, n: nat, resamples: seq<seq<nat>>, confidence: real, k: nat)
    requires Aligned(family, n) && Matrix(resamples, n) && 0.0 <= confidence <= 1.0 && k < |family|
    ensures family[k] in family
    ensures Percentile(Means(family[k].scores, resamples), confidence * 100.0) - family[k].margin
            <= UpperBound(family, n, resamples, confidence)
  {
    hide Percentile, Excesses, Means, Maxima, Mean, Shifted;
    var m := family[k];
    assert m in family;
    MaximaDominate(family, n, resamples, k);
    PercentileMonotone(Excesses(m, resamples), Maxima(family, n, resamples), confidence * 100.0);
    ExcessesShifted(m, resamples);
    PercentileShifted(Means(m.scores, resamples), m.margin, confidence * 100.0);
  }

  /** With one metric the family bound is that metric's own. */
  lemma FamilyOfOne(m: Metric, resamples: seq<seq<nat>>, confidence: real)
    requires Matrix(resamples, |m.scores|) && 0.0 <= confidence <= 1.0
    ensures UpperBound([m], |m.scores|, resamples, confidence)
            == Percentile(Means(m.scores, resamples), confidence * 100.0) - m.margin
  {
    hide Percentile, Excesses, Means, Mean, Shifted;
    ExcessesShifted(m, resamples);
    PercentileShifted(Means(m.scores, resamples), m.margin, confidence * 100.0);
  }

  /** The family bound is one metric's excess in each resample, so it is never above the worst one. */
  lemma {:induction false} MaximaAttained(family: seq<Metric>, n: nat, resamples: seq<seq<nat>>, b: nat)
    requires Aligned(family, n) && Matrix(resamples, n) && b < |resamples|
    ensures exists k :: 0 <= k < |family| && |family[k].scores| == n
                        && Maxima(family, n, resamples)[b] == Excesses(family[k], resamples)[b]
  {
    hide Excesses;
    assert family[0] in family;
    if |family| > 1 {
      assert forall m :: m in family[1..] ==> m in family;
      MaximaAttained(family[1..], n, resamples, b);
      var k :| 0 <= k < |family[1..]| && |family[1..][k].scores| == n
               && Maxima(family[1..], n, resamples)[b] == Excesses(family[1..][k], resamples)[b];
      assert family[k + 1] == family[1..][k];
    }
  }
}
