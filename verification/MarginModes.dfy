/** What a score means in every comparison mode, and what the margin bounds in the modes that do not
    compare ratios. */
module MarginModes {
  import opened Catalog
  import opened FamilyBound
  import opened Margins

  /** The candidate is on the wrong side of the baseline. */
  predicate Worse(baseline: real, candidate: real, direction: Direction) {
    if direction.LOWER_IS_BETTER? then candidate > baseline else candidate < baseline
  }

  lemma LogSign(log: real -> real, x: real, y: real)
    requires Logarithm(log) && x > 0.0 && y > 0.0
    ensures log(x / y) > 0.0 <==> x > y
    ensures log(x / y) < 0.0 <==> x < y
  {
    hide Logarithm;
    LogQuotient(log, x, y);
    LogOrder(log, x, y);
    LogOrder(log, y, x);
  }

  /** In every mode a score exists exactly for non-negative values; ordered modes score positive exactly on
      a regression and negative exactly on an improvement, the boolean mode scores one on any change. */
  lemma ScoreSign(baseline: real, candidate: real, direction: Direction, mode: Mode, log: real -> real)
    requires Logarithm(log)
    ensures var score := TransformRegression(baseline, candidate, direction, mode, log);
            && (score.Some? <==> baseline >= 0.0 && candidate >= 0.0)
            && (score.Some? && !mode.BOOLEAN_INVARIANT? ==>
                  && (score.value > 0.0 <==> Worse(baseline, candidate, direction))
                  && (score.value < 0.0 <==> Worse(candidate, baseline, direction)))
            && (score.Some? && mode.BOOLEAN_INVARIANT? ==>
                  score.value == 1.0 || (score.value == 0.0 && baseline == candidate))
            && (score == Some(1.0) && mode.BOOLEAN_INVARIANT? ==> baseline != candidate)
  {
    hide Logarithm;
    if baseline > 0.0 && candidate > 0.0 {
      LogSign(log, candidate, baseline);
      LogSign(log, baseline, candidate);
    }
  }

  /** A move from or to zero weighs 10⁹ in log mode, whichever way it goes. */
  lemma ZeroWeighs(x: real, direction: Direction, log: real -> real)
    requires x > 0.0
    ensures var up := TransformRegression(0.0, x, direction, LOG_RATIO, log);
            var down := TransformRegression(x, 0.0, direction, LOG_RATIO, log);
            up.Some? && down.Some? && up.value == -down.value
            && (up.value == 1_000_000_000.0 || up.value == -1_000_000_000.0)
  {
  }

  // ------------------------------------------------------------ absolute and boolean margins

  /** The scores of a metric's pairs in a given mode. */
  function ModeScores(b: seq<real>, c: seq<real>, p: Policy, log: real -> real): (r: seq<real>)
    requires |b| == |c| && NonNegatives(b) && NonNegatives(c)
    ensures |r| == |b|
    ensures forall i :: 0 <= i < |r| ==> Some(r[i]) == TransformRegression(b[i], c[i], p.direction, p.mode, log)
  {
    seq(|b|, i requires 0 <= i < |b| => TransformRegression(b[i], c[i], p.direction, p.mode, log).value)
  }

  ghost predicate NonNegatives(xs: seq<real>) {
    forall i :: 0 <= i < |xs| ==> xs[i] >= 0.0
  }

  lemma {:induction false} SumOfDeltas(b: seq<real>, c: seq<real>, p: Policy, log: real -> real)
    requires |b| == |c| && NonNegatives(b) && NonNegatives(c) && p.mode.ABSOLUTE_DELTA?
    ensures var diff := Sum(c) - Sum(b);
            Sum(ModeScores(b, c, p, log)) == if p.direction.LOWER_IS_BETTER? then diff else -diff
  {
    if b != [] {
      var n := |b| - 1;
      SumOfDeltas(b[..n], c[..n], p, log);
      assert ModeScores(b, c, p, log)[..n] == ModeScores(b[..n], c[..n], p, log);
    }
  }

  /** In absolute mode the mean score is within the margin exactly when the candidate's mean is within the
      allowed change of the baseline's. */
  lemma AbsoluteMarginIsExact(b: seq<real>, c: seq<real>, reference: real, allowed: real, p: Policy, log: real -> real)
    requires b != [] && |b| == |c| && NonNegatives(b) && NonNegatives(c) && p.mode.ABSOLUTE_DELTA?
    ensures var margin := TransformedMargin(reference, allowed, p, log);
            && margin.Some?
            && (Mean(ModeScores(b, c, p, log)) <= margin.value <==>
                if p.direction.LOWER_IS_BETTER? then Mean(c) <= Mean(b) + allowed else Mean(c) >= Mean(b) - allowed)
  {
    hide ModeScores, Sum;
    SumOfDeltas(b, c, p, log);
    var n := |b| as real;
    QuotientDifference(Sum(c), Sum(b), n);
    QuotientDifference(Sum(b), Sum(c), n);
  }

  lemma QuotientDifference(x: real, y: real, n: real)
    requires n > 0.0
    ensures (x - y) / n == x / n - y / n
  {
    var q, r, t := x / n, y / n, (x - y) / n;
    assert q * n == x && r * n == y && t * n == x - y;
    assert (t - (q - r)) * n == 0.0;
  }

  lemma {:induction false} SumOfFlags(xs: seq<real>)
    requires forall i :: 0 <= i < |xs| ==> xs[i] == 0.0 || xs[i] == 1.0
    ensures Sum(xs) >= 0.0
    ensures Sum(xs) <= 0.0 <==> forall i :: 0 <= i < |xs| ==> xs[i] == 0.0
  {
    if xs != [] {
      var n := |xs| - 1;
      SumOfFlags(xs[..n]);
      assert forall i :: 0 <= i < n ==> xs[..n][i] == xs[i];
    }
  }

  /** A boolean invariant is within its margin exactly when no pair differs. */
  lemma BooleanMarginIsExact(b: seq<real>, c: seq<real>, reference: real, allowed: real, p: Policy, log: real -> real)
    requires b != [] && |b| == |c| && NonNegatives(b) && NonNegatives(c) && p.mode.BOOLEAN_INVARIANT?
    ensures var margin := TransformedMargin(reference, allowed, p, log);
            margin.Some? && (Mean(ModeScores(b, c, p, log)) <= margin.value <==> b == c)
  {
    var xs := ModeScores(b, c, p, log);
    hide Sum, ModeScores;
    assert forall i :: 0 <= i < |xs| ==> xs[i] == if b[i] == c[i] then 0.0 else 1.0;
    SumOfFlags(xs);
    QuotientSign(Sum(xs), |xs| as real);
  }

  lemma QuotientSign(x: real, n: real)
    requires n > 0.0
    ensures x / n <= 0.0 <==> x <= 0.0
  {
    var q := x / n;
    assert q * n == x;
    if q > 0.0 {
      ProductPositive(q, n);
    }
    if q < 0.0 {
      ProductPositive(-q, n);
      assert (-q) * n == -x;
    }
  }

  /** Outside log mode the reference is the arithmetic mean. */
  lemma {:induction false} ReferenceIsMean(values: seq<real>, mode: Mode, log: real -> real, exp: real -> real)
    requires !mode.LOG_RATIO? && values != []
    ensures var reference := BaselineReference(values, mode, log, exp);
            reference.Some? && reference.value * |values| as real == Sum(values)
  {
    hide Sum;
  }

  /** In log mode one negative observation is an error, and otherwise one zero makes the reference zero, and
      with it the margin. */
  lemma ZeroReference(values: seq<real>, p: Policy, allowed: real, log: real -> real, exp: real -> real)
    requires p.mode.LOG_RATIO? && values != []
    ensures var reference := BaselineReference(values, p.mode, log, exp);
            && (reference.None? <==> exists i :: 0 <= i < |values| && values[i] < 0.0)
            && (reference.Some? && 0.0 in values ==>
                  reference == Some(0.0) && TransformedMargin(0.0, allowed, p, log) == Some(0.0))
  {
    hide Mean;
  }

  /** A minimum improvement is a fraction strictly between zero and one. */
  lemma ThresholdRange(direction: Direction, m: real, log: real -> real)
    ensures MinimumBenefit(direction, m, log).Some? <==> m > 0.0 && m < 1.0
  {
  }
}
