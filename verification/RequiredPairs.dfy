/** How many benchmark pairs the A/A calibration demands: the admission gate's rule, and the
    publication protocol's second implementation of it.

    The calibration score enters only through its sample variance: the source squares
    `z · s / half`, and `s²` is the variance. */
module RequiredPairs {
  import opened Catalog
  import opened FamilyBound
  import opened Margins

  const EPSILON: real := 0.000000000001
  const Z: real := 1.645
  const MINIMUM_OBSERVATIONS: int := 3

  function Squares(xs: seq<real>, mean: real): (r: seq<real>)
    ensures |r| == |xs| && forall i :: 0 <= i < |r| ==> r[i] == (xs[i] - mean) * (xs[i] - mean)
  {
    seq(|xs|, i requires 0 <= i < |xs| => (xs[i] - mean) * (xs[i] - mean))
  }

  /** Sample variance with one degree of freedom less than observations. */
  function Variance(xs: seq<real>): real
    requires |xs| >= 2
  {
    Sum(Squares(xs, Mean(xs))) / (|xs| - 1) as real
  }

  function Ceiling(x: real): int {
    if x == x.Floor as real then x.Floor else x.Floor + 1
  }

  /** `None` stands for the raised error. */
  function EstimateRequiredPairs(scores: seq<real>, margin: real, maximum: int): Option<int> {
    if margin <= EPSILON then Some(maximum)
    else if |scores| < 2 then None
    else Some(Ceiling(Z * Z * Variance(scores) / Square(0.5 * margin)))
  }

  function Square(x: real): real { x * x }

  // ------------------------------------------------------------ the least sufficient count

  lemma CeilingIs(x: real, n: int)
    ensures Ceiling(x) <= n <==> x <= n as real
  {
    var k := x.Floor;
    assert k as real <= x < (k + 1) as real;
    if k < n {
      assert (k + 1) as real <= n as real;
    } else {
      assert n as real <= k as real;
    }
  }

  lemma QuotientAtMost(x: real, y: real, z: real)
    requires y > 0.0
    ensures x / y <= z <==> x <= z * y
  {
    var q := x / y;
    assert q * y == x;
    if q <= z {
      var d := z - q;
      assert d * y >= 0.0;
      assert d * y == z * y - x;
    } else {
      var d := q - z;
      assert d * y > 0.0;
      assert d * y == x - z * y;
    }
  }

  lemma SquarePositive(x: real)
    requires x > 0.0
    ensures Square(x) > 0.0
  {
    assert Square(x) / x == x;
    QuotientAtMost(Square(x), x, 0.0);
  }

  /** Above the numerical floor the estimate is the least count `n` with
      (z·s)² ≤ n · (margin/2)²: a count suffices exactly when it is at least the estimate. */
  lemma EstimateIsLeast(scores: seq<real>, margin: real, maximum: int, n: int)
    requires margin > EPSILON && |scores| >= 2
    ensures EstimateRequiredPairs(scores, margin, maximum).Some?
    ensures EstimateRequiredPairs(scores, margin, maximum).value <= n
            <==> Z * Z * Variance(scores) <= n as real * Square(0.5 * margin)
  {
    hide Variance, Square, Ceiling;
    SquarePositive(0.5 * margin);
    var demand := Z * Z * Variance(scores);
    CeilingIs(demand / Square(0.5 * margin), n);
    QuotientAtMost(demand, Square(0.5 * margin), n as real);
  }

  lemma {:induction false} SumNonNegative(xs: seq<real>)
    requires forall i :: 0 <= i < |xs| ==> xs[i] >= 0.0
    ensures Sum(xs) >= 0.0
  {
    if xs != [] {
      SumNonNegative(xs[..|xs| - 1]);
    }
  }

  lemma SquareNonNegative(x: real)
    ensures x * x >= 0.0
  {
  }

  lemma VarianceNonNegative(xs: seq<real>)
    requires |xs| >= 2
    ensures Variance(xs) >= 0.0
  {
    var mean := Mean(xs);
    forall i | 0 <= i < |xs|
      ensures Squares(xs, mean)[i] >= 0.0
    {
      SquareNonNegative(xs[i] - mean);
    }
    SumNonNegative(Squares(xs, mean));
  }

  lemma SquareMonotone(x: real, y: real)
    requires 0.0 <= x <= y
    ensures Square(x) <= Square(y)
  {
    assert x * x <= x * y;
    assert x * y <= y * y;
  }

  lemma ScaleUp(n: real, x: real, y: real)
    requires 0.0 <= n && x <= y
    ensures n * x <= n * y
  {
  }

  /** A wider margin never demands more pairs, and the demand is never negative. */
  lemma EstimateAntitone(scores: seq<real>, narrow: real, wide: real, maximum: int)
    requires EPSILON < narrow <= wide && |scores| >= 2
    ensures 0 <= EstimateRequiredPairs(scores, wide, maximum).value
              <= EstimateRequiredPairs(scores, narrow, maximum).value
  {
    hide Variance, Square, EstimateRequiredPairs;
    VarianceNonNegative(scores);
    SquarePositive(0.5 * narrow);
    SquarePositive(0.5 * wide);
    EstimateIsLeast(scores, narrow, maximum, -1);
    EstimateIsLeast(scores, wide, maximum, -1);
    var n := EstimateRequiredPairs(scores, narrow, maximum).value;
    EstimateIsLeast(scores, narrow, maximum, n);
    assert n >= 0;
    SquareMonotone(0.5 * narrow, 0.5 * wide);
    ScaleUp(n as real, Square(0.5 * narrow), Square(0.5 * wide));
    EstimateIsLeast(scores, wide, maximum, n);
  }

  // ------------------------------------------------------------ the gate's rule

  /** One required metric of an admission request. */
  datatype Measured = Measured(baseline: seq<real>, aaScores: seq<real>, policy: Policy, minimumBenefit: real)

  function Max(a: int, b: int): int { if a < b then b else a }

  function RequiredForMetric(m: Measured, maximum: int, log: real -> real, exp: real -> real): Option<int> {
    var reference := BaselineReference(m.baseline, m.policy.mode, log, exp);
    if reference.None? then None
    else
      var allowed := AllowedRegression(reference.value, m.policy);
      if allowed.None? then None
      else
        var margin := TransformedMargin(reference.value, allowed.value, m.policy, log);
        if margin.None? then None else EstimateRequiredPairs(m.aaScores, margin.value, maximum)
  }

  function RequiredForPrimary(m: Measured, maximum: int, log: real -> real): Option<int> {
    var threshold := MinimumBenefit(m.policy.direction, m.minimumBenefit, log);
    if threshold.None? then None else EstimateRequiredPairs(m.aaScores, threshold.value, maximum)
  }

  /** The largest requirement of the metrics, or an error in one of them. */
  function Requirements(ms: seq<Measured>, maximum: int, log: real -> real, exp: real -> real): Option<int> {
    if ms == [] then Some(0)
    else
      var first := RequiredForMetric(ms[0], maximum, log, exp);
      var rest := Requirements(ms[1..], maximum, log, exp);
      if first.None? || rest.None? then None else Some(Max(first.value, rest.value))
  }

  datatype Verdict = InvalidData | Noise(required: int) | Enough(required: int)

  /** The required count of `evaluate_candidate_admission` outside the smoke profile. */
  function GateRequirement(ms: seq<Measured>, primary: Measured, minimum: int, maximum: int,
                           log: real -> real, exp: real -> real): Verdict {
    var metrics := Requirements(ms, maximum, log, exp);
    var benefit := RequiredForPrimary(primary, maximum, log);
    if metrics.None? || benefit.None? then InvalidData
    else
      var required := Max(Max(MINIMUM_OBSERVATIONS, minimum), Max(metrics.value, benefit.value));
      if required > maximum then Noise(required) else Enough(required)
  }

  /** `required_candidate_pairs`: one protected metric, and a primary benefit gate on the same scores. */
  function PublicationRequirement(m: Measured, direction: Direction, minimumBenefit: real, minimum: int, maximum: int,
                                  log: real -> real, exp: real -> real): Verdict {
    var metric := RequiredForMetric(m, maximum, log, exp);
    var threshold := MinimumBenefit(direction, minimumBenefit, log);
    var benefit := if threshold.None? then None else EstimateRequiredPairs(m.aaScores, threshold.value, maximum);
    if metric.None? || benefit.None? then InvalidData
    else
      var required := Max(Max(Max(MINIMUM_OBSERVATIONS, minimum), metric.value), benefit.value);
      if required > maximum then Noise(required) else Enough(required)
  }

  /** The plan for one protected metric of an admission request. */
  function Plan(m: Measured, primary: Measured, minimum: int, maximum: int, log: real -> real,
                exp: real -> real): Verdict {
    PublicationRequirement(m, primary.policy.direction, primary.minimumBenefit, minimum, maximum, log, exp)
  }

  function Count(v: Verdict): int {
    if v.InvalidData? then 0 else v.required
  }

  /** On the same inputs the two implementations agree on the count, the noise verdict and the error. */
  lemma ImplementationsAgree(m: Measured, minimum: int, maximum: int, log: real -> real, exp: real -> real)
    requires minimum >= 0
    ensures GateRequirement([m], m, minimum, maximum, log, exp) == Plan(m, m, minimum, maximum, log, exp)
  {
    hide RequiredForMetric, MinimumBenefit, EstimateRequiredPairs;
    assert [m][1..] == [];
    assert Requirements([], maximum, log, exp) == Some(0);
  }

  /** Some metric's requirement fails, or the largest is attained (none below zero counts). */
  lemma {:induction false} RequirementsAre(ms: seq<Measured>, maximum: int, log: real -> real, exp: real -> real)
    ensures Requirements(ms, maximum, log, exp).None? <==>
            exists i :: 0 <= i < |ms| && RequiredForMetric(ms[i], maximum, log, exp).None?
    ensures var all := Requirements(ms, maximum, log, exp);
            all.Some? ==>
              && all.value >= 0
              && (forall i :: 0 <= i < |ms| ==> RequiredForMetric(ms[i], maximum, log, exp).value <= all.value)
              && (all.value > 0 ==>
                    exists i :: 0 <= i < |ms| && RequiredForMetric(ms[i], maximum, log, exp) == all)
  {
    hide RequiredForMetric;
    if ms != [] {
      var rest := ms[1..];
      RequirementsAre(rest, maximum, log, exp);
      assert forall i :: 0 <= i < |rest| ==> rest[i] == ms[i + 1];
      var all := Requirements(ms, maximum, log, exp);
      if all.Some? && all.value > 0 && RequiredForMetric(ms[0], maximum, log, exp) != all {
        var i :| 0 <= i < |rest| && RequiredForMetric(rest[i], maximum, log, exp) == all;
        assert ms[i + 1] == rest[i];
      }
    }
  }

  ghost predicate SharedScores(ms: seq<Measured>, primary: Measured) {
    forall m :: m in ms ==> m.aaScores == primary.aaScores
  }

  /** When all metrics are calibrated on the same scores, the gate's verdict is that of the worst
      plan: invalid or noisy when some plan is, and otherwise the largest planned count. */
  lemma GateIsWorstPlan(ms: seq<Measured>, primary: Measured, minimum: int, maximum: int, log: real -> real,
                        exp: real -> real)
    requires ms != [] && SharedScores(ms, primary)
    ensures var gate := GateRequirement(ms, primary, minimum, maximum, log, exp);
            && (gate.InvalidData? <==> exists m :: m in ms && Plan(m, primary, minimum, maximum, log, exp).InvalidData?)
            && (!gate.InvalidData? ==>
                  && (forall m :: m in ms ==> Count(Plan(m, primary, minimum, maximum, log, exp)) <= Count(gate))
                  && (exists m :: m in ms && Plan(m, primary, minimum, maximum, log, exp) == gate))
  {
    hide RequiredForMetric, Requirements, MinimumBenefit, EstimateRequiredPairs;
    RequirementsAre(ms, maximum, log, exp);
    var all := Requirements(ms, maximum, log, exp);
    if all.Some? {
      var i :| 0 <= i < |ms| && (all.value > 0 ==> RequiredForMetric(ms[i], maximum, log, exp) == all);
      assert ms[i] in ms;
    } else {
      var i :| 0 <= i < |ms| && RequiredForMetric(ms[i], maximum, log, exp).None?;
      assert ms[i] in ms;
    }
    assert ms[0] in ms;
  }

  lemma {:induction false} RequirementsCover(ms: seq<Measured>, m: Measured, maximum: int, log: real -> real,
                                             exp: real -> real)
    requires m in ms && Requirements(ms, maximum, log, exp).Some?
    ensures RequiredForMetric(m, maximum, log, exp).Some?
    ensures RequiredForMetric(m, maximum, log, exp).value <= Requirements(ms, maximum, log, exp).value
  {
    hide RequiredForMetric;
    if ms[0] != m {
      RequirementsCover(ms[1..], m, maximum, log, exp);
    }
  }

  /** With more protected metrics the gate demands at least what the publication protocol planned
      for the primary, so planned noise is noise at the gate. */
  lemma GateDemandsAtLeast(ms: seq<Measured>, primary: Measured, minimum: int, maximum: int, log: real -> real,
                           exp: real -> real)
    requires primary in ms && !GateRequirement(ms, primary, minimum, maximum, log, exp).InvalidData?
    ensures var planned := Plan(primary, primary, minimum, maximum, log, exp);
            var demanded := GateRequirement(ms, primary, minimum, maximum, log, exp);
            && !planned.InvalidData? && Count(planned) <= Count(demanded)
            && (planned.Noise? ==> demanded.Noise?)
  {
    hide RequiredForMetric, MinimumBenefit, EstimateRequiredPairs, Requirements;
    RequirementsCover(ms, primary, maximum, log, exp);
  }

  /** The gate's count is the least number that is at least 3, the profile's minimum, every metric's
      requirement and the benefit's; it is noise exactly above the profile's maximum. */
  lemma CountIsLeast(ms: seq<Measured>, primary: Measured, minimum: int, maximum: int, log: real -> real,
                     exp: real -> real, n: int)
    ensures var gate := GateRequirement(ms, primary, minimum, maximum, log, exp);
            && (gate.InvalidData? <==>
                  || RequiredForPrimary(primary, maximum, log).None?
                  || exists i :: 0 <= i < |ms| && RequiredForMetric(ms[i], maximum, log, exp).None?)
            && (!gate.InvalidData? ==>
                  && (gate.required <= n <==>
                        && 3 <= n && minimum <= n && RequiredForPrimary(primary, maximum, log).value <= n
                        && forall i :: 0 <= i < |ms| ==> RequiredForMetric(ms[i], maximum, log, exp).value <= n)
                  && (gate.Noise? <==> gate.required > maximum))
  {
    hide RequiredForMetric, RequiredForPrimary, Requirements;
    RequirementsAre(ms, maximum, log, exp);
    var all := Requirements(ms, maximum, log, exp);
    if all.Some? && all.value > n && all.value > 0 {
      var i :| 0 <= i < |ms| && RequiredForMetric(ms[i], maximum, log, exp) == all;
    }
  }

  /** The sample variance times one less than the number of observations is the sum of squared deviations
      from the mean, and the mean times the number is the sum. */
  lemma {:induction false} VarianceIs(xs: seq<real>)
    requires |xs| >= 2
    ensures Mean(xs) * |xs| as real == Sum(xs)
    ensures Variance(xs) * (|xs| - 1) as real == Sum(Squares(xs, Mean(xs)))
  {
    hide Sum;
  }

  /** A margin within 10⁻¹² demands the maximum; above it fewer than two scores are an error, and otherwise
      the estimate is the least n with 1.645² · variance ≤ n · (margin / 2)². */
  lemma EstimateExactly(scores: seq<real>, margin: real, maximum: int, n: int)
    ensures margin <= 0.000000000001 ==> EstimateRequiredPairs(scores, margin, maximum) == Some(maximum)
    ensures margin > 0.000000000001 ==> (EstimateRequiredPairs(scores, margin, maximum).None? <==> |scores| < 2)
    ensures margin > 0.000000000001 && |scores| >= 2 ==>
              (EstimateRequiredPairs(scores, margin, maximum).value <= n <==>
               1.645 * 1.645 * Variance(scores) <= n as real * ((0.5 * margin) * (0.5 * margin)))
  {
    if margin > EPSILON && |scores| >= 2 {
      hide Variance, Ceiling;
      EstimateIsLeast(scores, margin, maximum, n);
    }
  }

  // ------------------------------------------------------------ the publication range

  const PUBLICATION_MINIMUM: int := 15
  const PUBLICATION_MAXIMUM: int := 40

  /** The numbers of the candidate pair identifiers; `None` stands for the raised error. */
  function CandidatePairIds(count: int): Option<seq<int>> {
    if PUBLICATION_MINIMUM <= count <= PUBLICATION_MAXIMUM then Some(seq(count, i => i + 1)) else None
  }

  /** A complete sampling plan is accepted by the runner with exactly its count; a noisy one never is. */
  lemma CompletePlanAccepted(m: Measured, primary: Measured, log: real -> real, exp: real -> real)
    ensures var plan := Plan(m, primary, PUBLICATION_MINIMUM, PUBLICATION_MAXIMUM, log, exp);
            var ids := CandidatePairIds(Count(plan));
            && (plan.Enough? <==> ids.Some?)
            && (plan.Enough? ==> |ids.value| == plan.required)
  {
    hide RequiredForMetric, MinimumBenefit, EstimateRequiredPairs;
  }

  lemma NoiseIsAbove(ms: seq<Measured>, m: Measured, primary: Measured, log: real -> real, exp: real -> real)
    ensures var plan := Plan(m, primary, PUBLICATION_MINIMUM, PUBLICATION_MAXIMUM, log, exp);
            && (plan.Noise? ==> plan.required > PUBLICATION_MAXIMUM)
            && (plan.Enough? ==> plan.required <= PUBLICATION_MAXIMUM)
    ensures var gate := GateRequirement(ms, primary, PUBLICATION_MINIMUM, PUBLICATION_MAXIMUM, log, exp);
            gate.Enough? ==> gate.required <= PUBLICATION_MAXIMUM
  {
    hide RequiredForMetric, Requirements, MinimumBenefit, EstimateRequiredPairs;
  }

  /** On shared scores, the gate has enough pairs in the publication range exactly when the runner
      accepts the plan of every protected metric; it then demands the longest of their pair lists. */
  lemma EnoughIffEveryPlanRuns(ms: seq<Measured>, primary: Measured, log: real -> real, exp: real -> real)
    requires ms != [] && SharedScores(ms, primary)
    ensures var gate := GateRequirement(ms, primary, PUBLICATION_MINIMUM, PUBLICATION_MAXIMUM, log, exp);
            && (gate.Enough? <==> forall m :: m in ms ==> PairIds(m, primary, log, exp).Some?)
            && (gate.Enough? ==>
                  && (forall m :: m in ms ==> |PairIds(m, primary, log, exp).value| <= gate.required)
                  && (exists m :: m in ms && |PairIds(m, primary, log, exp).value| == gate.required))
  {
    hide GateRequirement, Plan;
    GateIsWorstPlan(ms, primary, PUBLICATION_MINIMUM, PUBLICATION_MAXIMUM, log, exp);
    forall m | m in ms
      ensures var plan := Plan(m, primary, PUBLICATION_MINIMUM, PUBLICATION_MAXIMUM, log, exp);
              plan.Enough? <==> PairIds(m, primary, log, exp).Some?
      ensures PairIds(m, primary, log, exp).Some? ==>
                |PairIds(m, primary, log, exp).value|
                == Count(Plan(m, primary, PUBLICATION_MINIMUM, PUBLICATION_MAXIMUM, log, exp))
    {
      CompletePlanAccepted(m, primary, log, exp);
      NoiseIsAbove(ms, m, primary, log, exp);
    }
    var gate := GateRequirement(ms, primary, PUBLICATION_MINIMUM, PUBLICATION_MAXIMUM, log, exp);
    if gate.InvalidData? {
      var m :| m in ms && Plan(m, primary, PUBLICATION_MINIMUM, PUBLICATION_MAXIMUM, log, exp).InvalidData?;
      assert PairIds(m, primary, log, exp).None?;
    } else if gate.Noise? {
      var m :| m in ms && Plan(m, primary, PUBLICATION_MINIMUM, PUBLICATION_MAXIMUM, log, exp) == gate;
      assert PairIds(m, primary, log, exp).None?;
    } else {
      forall m | m in ms
        ensures PairIds(m, primary, log, exp).Some?
      {
        NoiseIsAbove(ms, m, primary, log, exp);
      }
    }
  }

  /** The pair identifiers the runner makes of a metric's plan. */
  function PairIds(m: Measured, primary: Measured, log: real -> real, exp: real -> real): Option<seq<int>> {
    CandidatePairIds(Count(Plan(m, primary, PUBLICATION_MINIMUM, PUBLICATION_MAXIMUM, log, exp)))
  }

  /** The runner takes 15 to 40 pairs and numbers them from 1. */
  lemma PairIdsAre(count: int)
    ensures CandidatePairIds(count).Some? <==> 15 <= count <= 40
    ensures CandidatePairIds(count).Some? ==>
              |CandidatePairIds(count).value| == count
              && forall i :: 0 <= i < count ==> CandidatePairIds(count).value[i] == i + 1
  {
  }
}
