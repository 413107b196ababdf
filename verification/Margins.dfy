/** Transformed scores and margins mean the same in original units.  `log` and `exp` are any
    functions with the laws of the natural logarithm and its inverse. */
module Margins {
  import opened Catalog
  import opened FamilyBound

  datatype Direction = LOWER_IS_BETTER | HIGHER_IS_BETTER

  datatype Mode = LOG_RATIO | ABSOLUTE_DELTA | BOOLEAN_INVARIANT

  datatype Policy = Policy(
    direction: Direction, mode: Mode, relativeCap: Option<real>, absoluteCap: Option<real>,
    hardUpperBoundary: Option<real>, headroomFraction: Option<real>)

  const SENTINEL: real := 1_000_000_000.0

  ghost predicate Logarithm(log: real -> real) {
    && (forall x, y :: Positive(x) && Positive(y) ==> log(x * y) == log(x) + log(y))
    && (forall x, y :: Positive(x) && x < y ==> log(x) < log(y))
  }

  ghost predicate Exponential(log: real -> real, exp: real -> real) {
    Logarithm(log) && forall y :: Positive(exp(y)) && log(exp(y)) == y
  }

  predicate Positive(x: real) { x > 0.0 }

  // ------------------------------------------------------------ the transforms

  /** `None` stands for the raised error. */
  function TransformRegression(baseline: real, candidate: real, direction: Direction, mode: Mode,
                               log: real -> real): Option<real> {
    if baseline < 0.0 || candidate < 0.0 then None
    else
      match mode
      case BOOLEAN_INVARIANT => Some(if baseline == candidate then 0.0 else 1.0)
      case ABSOLUTE_DELTA => Some(if direction.LOWER_IS_BETTER? then candidate - baseline else baseline - candidate)
      case LOG_RATIO =>
        if baseline == 0.0 && candidate == 0.0 then Some(0.0)
        else if baseline == 0.0 then Some(if direction.LOWER_IS_BETTER? then SENTINEL else -SENTINEL)
        else if candidate == 0.0 then Some(if direction.LOWER_IS_BETTER? then -SENTINEL else SENTINEL)
        else Some(log(if direction.LOWER_IS_BETTER? then candidate / baseline else baseline / candidate))
  }

  function TransformBenefit(baseline: real, candidate: real, direction: Direction, log: real -> real): Option<real> {
    if baseline < 0.0 || candidate < 0.0 then None
    else if baseline == 0.0 && candidate == 0.0 then Some(0.0)
    else if baseline == 0.0 then Some(if direction.LOWER_IS_BETTER? then -SENTINEL else SENTINEL)
    else if candidate == 0.0 then Some(if direction.LOWER_IS_BETTER? then SENTINEL else -SENTINEL)
    else Some(log(if direction.LOWER_IS_BETTER? then baseline / candidate else candidate / baseline))
  }

  function Logs(xs: seq<real>, log: real -> real): (r: seq<real>)
    ensures |r| == |xs| && forall i :: 0 <= i < |r| ==> r[i] == log(xs[i])
  {
    seq(|xs|, i requires 0 <= i < |xs| => log(xs[i]))
  }

  function BaselineReference(values: seq<real>, mode: Mode, log: real -> real, exp: real -> real): Option<real> {
    if values == [] then None
    else if mode.LOG_RATIO? then
      if exists i :: 0 <= i < |values| && values[i] < 0.0 then None
      else if 0.0 in values then Some(0.0)
      else Some(exp(Mean(Logs(values, log))))
    else Some(Mean(values))
  }

  function Least(xs: seq<real>): real
    requires xs != []
  {
    if |xs| == 1 then xs[0] else var rest := Least(xs[1..]); if xs[0] <= rest then xs[0] else rest
  }

  /** The configured caps on the change of a metric that is below its hard boundary. */
  function Caps(reference: real, p: Policy): seq<real> {
    (if p.relativeCap.Some? then [reference * p.relativeCap.value] else [])
    + (if p.absoluteCap.Some? then [p.absoluteCap.value] else [])
    + (if p.hardUpperBoundary.Some? && p.headroomFraction.Some?
       then [p.headroomFraction.value * (p.hardUpperBoundary.value - reference)] else [])
  }

  function AllowedRegression(reference: real, p: Policy): Option<real> {
    if p.hardUpperBoundary.Some? && reference >= p.hardUpperBoundary.value then Some(0.0)
    else if Caps(reference, p) == [] then None
    else Some(Least(Caps(reference, p)))
  }

  function TransformedMargin(reference: real, allowed: real, p: Policy, log: real -> real): Option<real> {
    if p.mode.ABSOLUTE_DELTA? then Some(allowed)
    else if !p.mode.LOG_RATIO? then Some(0.0)
    else if reference <= 0.0 then Some(0.0)
    else if p.direction.LOWER_IS_BETTER? then Some(log((reference + allowed) / reference))
    else if reference - allowed <= 0.0 then None
    else Some(log(reference / (reference - allowed)))
  }

  function MinimumBenefit(direction: Direction, m: real, log: real -> real): Option<real> {
    if !(0.0 < m < 1.0) then None
    else Some(if direction.LOWER_IS_BETTER? then log(1.0 / (1.0 - m)) else log(1.0 + m))
  }

  // ------------------------------------------------------------ laws of the logarithm

  lemma LogProduct(log: real -> real, x: real, y: real, z: real)
    requires Logarithm(log) && x > 0.0 && y > 0.0 && z == x * y
    ensures log(z) == log(x) + log(y)
  {
    assert Positive(x) && Positive(y);
  }

  lemma LogQuotient(log: real -> real, x: real, y: real)
    requires Logarithm(log) && x > 0.0 && y > 0.0
    ensures x / y > 0.0 && log(x / y) == log(x) - log(y)
  {
    hide Logarithm;
    assert x / y > 0.0;
    var q := x / y;
    assert q * y == x;
    LogProduct(log, q, y, x);
  }

  lemma LogOrder(log: real -> real, x: real, y: real)
    requires Logarithm(log) && x > 0.0 && y > 0.0
    ensures log(x) <= log(y) <==> x <= y
    ensures log(x) == log(y) <==> x == y
  {
    assert Positive(x) && Positive(y);
  }

  lemma LogOne(log: real -> real)
    requires Logarithm(log)
    ensures log(1.0) == 0.0
  {
    LogProduct(log, 1.0, 1.0, 1.0);
  }

  // ------------------------------------------------------------ benefit is negated regression

  /** In log mode the benefit is the regression negated, zero sentinels and errors included. */
  lemma BenefitNegates(b: real, c: real, direction: Direction, log: real -> real)
    requires Logarithm(log)
    ensures var regression := TransformRegression(b, c, direction, LOG_RATIO, log);
            TransformBenefit(b, c, direction, log) == if regression.Some? then Some(-regression.value) else None
  {
    hide Logarithm;
    if b > 0.0 && c > 0.0 {
      LogQuotient(log, b, c);
      LogQuotient(log, c, b);
    }
  }

  // ------------------------------------------------------------ geometric means

  function Product(xs: seq<real>): real {
    if xs == [] then 1.0 else Product(xs[..|xs| - 1]) * xs[|xs| - 1]
  }

  function Pow(x: real, n: nat): real {
    if n == 0 then 1.0 else Pow(x, n - 1) * x
  }

  ghost predicate AllPositive(xs: seq<real>) {
    forall i :: 0 <= i < |xs| ==> xs[i] > 0.0
  }

  ghost predicate IsGeometricMean(g: real, xs: seq<real>) {
    g > 0.0 && Pow(g, |xs|) == Product(xs)
  }

  lemma ProductPositive(x: real, y: real)
    requires x > 0.0 && y > 0.0
    ensures x * y > 0.0
  {
  }

  lemma {:induction false} SumOfLogs(xs: seq<real>, log: real -> real)
    requires Logarithm(log) && AllPositive(xs)
    ensures Product(xs) > 0.0 && Sum(Logs(xs, log)) == log(Product(xs))
  {
    hide Logarithm;
    if xs == [] {
      LogOne(log);
    } else {
      var init, last := xs[..|xs| - 1], xs[|xs| - 1];
      SumOfLogs(init, log);
      assert Logs(xs, log)[..|xs| - 1] == Logs(init, log);
      ProductPositive(Product(init), last);
      LogProduct(log, Product(init), last, Product(xs));
      assert Sum(Logs(xs, log)) == Sum(Logs(init, log)) + log(last);
    }
  }

  lemma Distribute(k: real, y: real)
    ensures (k + 1.0) * y == k * y + y
  {
  }

  lemma {:induction false} LogPow(x: real, n: nat, log: real -> real)
    requires Logarithm(log) && x > 0.0
    ensures Pow(x, n) > 0.0 && log(Pow(x, n)) == n as real * log(x)
  {
    hide Logarithm;
    if n == 0 {
      LogOne(log);
    } else {
      LogPow(x, n - 1, log);
      ProductPositive(Pow(x, n - 1), x);
      LogProduct(log, Pow(x, n - 1), x, Pow(x, n));
      Distribute((n - 1) as real, log(x));
    }
  }

  /** The geometric mean is the number whose logarithm is the mean of the logarithms. */
  lemma GeometricMeanIff(g: real, xs: seq<real>, log: real -> real)
    requires Logarithm(log) && xs != [] && AllPositive(xs) && g > 0.0
    ensures IsGeometricMean(g, xs) <==> log(g) == Mean(Logs(xs, log))
  {
    hide Logarithm, Product, Pow;
    SumOfLogs(xs, log);
    LogPow(g, |xs|, log);
    LogOrder(log, Pow(g, |xs|), Product(xs));
    DivideBy(log(g), |xs| as real, Sum(Logs(xs, log)));
  }

  lemma DivideBy(x: real, n: real, y: real)
    requires n > 0.0
    ensures x == y / n <==> n * x == y
  {
  }

  /** The baseline reference in log mode is the geometric mean of the observations. */
  lemma ReferenceIsGeometricMean(values: seq<real>, log: real -> real, exp: real -> real)
    requires Exponential(log, exp) && values != [] && AllPositive(values)
    ensures BaselineReference(values, LOG_RATIO, log, exp).Some?
    ensures IsGeometricMean(BaselineReference(values, LOG_RATIO, log, exp).value, values)
  {
    var y := Mean(Logs(values, log));
    assert Positive(exp(y)) && log(exp(y)) == y;
    hide Logarithm;
    GeometricMeanIff(exp(y), values, log);
  }

  // ------------------------------------------------------------ margins in original units

  /** The transformed scores of a metric's pairs. */
  function Scores(b: seq<real>, c: seq<real>, direction: Direction, log: real -> real): (r: seq<real>)
    requires |b| == |c| && AllPositive(b) && AllPositive(c)
    ensures |r| == |b|
    ensures forall i :: 0 <= i < |r| ==> Some(r[i]) == TransformRegression(b[i], c[i], direction, LOG_RATIO, log)
  {
    seq(|b|, i requires 0 <= i < |b| => TransformRegression(b[i], c[i], direction, LOG_RATIO, log).value)
  }

  function Benefits(b: seq<real>, c: seq<real>, direction: Direction, log: real -> real): (r: seq<real>)
    requires |b| == |c| && AllPositive(b) && AllPositive(c)
    ensures |r| == |b|
    ensures forall i :: 0 <= i < |r| ==> Some(r[i]) == TransformBenefit(b[i], c[i], direction, log)
  {
    seq(|b|, i requires 0 <= i < |b| => TransformBenefit(b[i], c[i], direction, log).value)
  }

  lemma {:induction false} SumOfScores(b: seq<real>, c: seq<real>, direction: Direction, log: real -> real)
    requires Logarithm(log) && |b| == |c| && AllPositive(b) && AllPositive(c)
    ensures var diff := Sum(Logs(c, log)) - Sum(Logs(b, log));
            Sum(Scores(b, c, direction, log)) == (if direction.LOWER_IS_BETTER? then diff else -diff)
  {
    hide Logarithm;
    if b != [] {
      var n := |b| - 1;
      SumOfScores(b[..n], c[..n], direction, log);
      assert Logs(b, log)[..n] == Logs(b[..n], log) && Logs(c, log)[..n] == Logs(c[..n], log);
      assert Scores(b, c, direction, log)[..n] == Scores(b[..n], c[..n], direction, log);
      LogQuotient(log, c[n], b[n]);
      LogQuotient(log, b[n], c[n]);
    }
  }

  /** The mean score is the log ratio of the geometric means. */
  lemma MeanScore(b: seq<real>, c: seq<real>, g: real, h: real, direction: Direction, log: real -> real)
    requires Logarithm(log) && b != [] && |b| == |c| && AllPositive(b) && AllPositive(c)
    requires IsGeometricMean(g, b) && IsGeometricMean(h, c)
    ensures Mean(Scores(b, c, direction, log)) == (if direction.LOWER_IS_BETTER? then log(h) - log(g)
                                                   else log(g) - log(h))
  {
    hide Logarithm, IsGeometricMean, Scores, Sum;
    assert g > 0.0 && h > 0.0 by { MeansPositive(g, b); MeansPositive(h, c); }
    GeometricMeanIff(g, b, log);
    GeometricMeanIff(h, c, log);
    SumOfScores(b, c, direction, log);
    var n := |b| as real;
    var x, y := Sum(Logs(c, log)), Sum(Logs(b, log));
    assert (x - y) / n == x / n - y / n;
    assert (y - x) / n == y / n - x / n;
  }

  lemma MeansPositive(g: real, xs: seq<real>)
    requires IsGeometricMean(g, xs)
    ensures g > 0.0
  {
    hide Pow, Product;
  }

  /** The mean regression score is within the transformed margin exactly when the candidate's
      geometric mean is within the allowed change of the baseline's, in original units. */
  lemma MarginIsExact(b: seq<real>, c: seq<real>, g: real, h: real, allowed: real, p: Policy, log: real -> real)
    requires Logarithm(log) && b != [] && |b| == |c| && AllPositive(b) && AllPositive(c)
    requires IsGeometricMean(g, b) && IsGeometricMean(h, c)
    requires p.mode.LOG_RATIO? && (p.direction.LOWER_IS_BETTER? ==> g + allowed > 0.0)
    ensures var margin := TransformedMargin(g, allowed, p, log);
            var mean := Mean(Scores(b, c, p.direction, log));
            if p.direction.LOWER_IS_BETTER? then margin.Some? && (mean <= margin.value <==> h <= g + allowed)
            else (margin.Some? <==> allowed < g) && (margin.Some? ==> (mean <= margin.value <==> h >= g - allowed))
  {
    hide Logarithm, Scores, Mean, IsGeometricMean;
    MeansPositive(g, b);
    MeansPositive(h, c);
    MeanScore(b, c, g, h, p.direction, log);
    if p.direction.LOWER_IS_BETTER? {
      LogQuotient(log, g + allowed, g);
      LogOrder(log, h, g + allowed);
    } else if allowed < g {
      LogQuotient(log, g, g - allowed);
      LogOrder(log, g - allowed, h);
    }
  }

  lemma {:induction false} SumNegated(xs: seq<real>, ys: seq<real>)
    requires |xs| == |ys| && forall i :: 0 <= i < |xs| ==> ys[i] == -xs[i]
    ensures Sum(ys) == -Sum(xs)
  {
    if xs != [] {
      SumNegated(xs[..|xs| - 1], ys[..|ys| - 1]);
    }
  }

  /** The mean benefit reaches the threshold exactly when the geometric mean improved by at least
      the minimum fraction, in original units. */
  lemma BenefitIsExact(b: seq<real>, c: seq<real>, g: real, h: real, m: real, direction: Direction, log: real -> real)
    requires Logarithm(log) && b != [] && |b| == |c| && AllPositive(b) && AllPositive(c)
    requires IsGeometricMean(g, b) && IsGeometricMean(h, c) && 0.0 < m < 1.0
    ensures MinimumBenefit(direction, m, log).Some?
    ensures Mean(Benefits(b, c, direction, log)) >= MinimumBenefit(direction, m, log).value
            <==> (if direction.LOWER_IS_BETTER? then h <= (1.0 - m) * g else h >= (1.0 + m) * g)
  {
    hide Logarithm, IsGeometricMean;
    MeansPositive(g, b);
    MeansPositive(h, c);
    MeanScore(b, c, g, h, direction, log);
    MeanBenefit(b, c, direction, log);
    Threshold(g, h, m, direction, log);
    hide Mean, Scores, Benefits, MinimumBenefit;
  }

  lemma Threshold(g: real, h: real, m: real, direction: Direction, log: real -> real)
    requires Logarithm(log) && g > 0.0 && h > 0.0 && 0.0 < m < 1.0
    ensures var threshold := MinimumBenefit(direction, m, log);
            && threshold.Some?
            && (if direction.LOWER_IS_BETTER? then log(g) - log(h) >= threshold.value <==> h <= (1.0 - m) * g
                else log(h) - log(g) >= threshold.value <==> h >= (1.0 + m) * g)
  {
    hide Logarithm;
    if direction.LOWER_IS_BETTER? {
      var k := 1.0 - m;
      LogOne(log);
      LogQuotient(log, 1.0, k);
      LogScaled(log, k, g, h);
    } else {
      LogScaled(log, 1.0 + m, g, h);
    }
  }

  lemma LogScaled(log: real -> real, k: real, g: real, h: real)
    requires Logarithm(log) && k > 0.0 && g > 0.0 && h > 0.0
    ensures log(h) <= log(k) + log(g) <==> h <= k * g
    ensures log(h) >= log(k) + log(g) <==> h >= k * g
  {
    hide Logarithm;
    var z := k * g;
    ProductPositive(k, g);
    LogProduct(log, k, g, z);
    LogOrder(log, h, z);
    LogOrder(log, z, h);
  }

  lemma QuotientNegated(x: real, n: real)
    requires n > 0.0
    ensures (-x) / n == -(x / n)
  {
    var q := x / n;
    assert q * n == x;
    assert (-q) * n == -x;
    var r := (-x) / n;
    assert r * n == -x;
    assert (r + q) * n == 0.0;
  }

  lemma MeanBenefit(b: seq<real>, c: seq<real>, direction: Direction, log: real -> real)
    requires Logarithm(log) && b != [] && |b| == |c| && AllPositive(b) && AllPositive(c)
    ensures Mean(Benefits(b, c, direction, log)) == -Mean(Scores(b, c, direction, log))
  {
    hide Logarithm, Sum;
    var xs, ys := Scores(b, c, direction, log), Benefits(b, c, direction, log);
    forall i | 0 <= i < |b|
      ensures ys[i] == -xs[i]
    {
      BenefitNegates(b[i], c[i], direction, log);
    }
    SumNegated(xs, ys);
    QuotientNegated(Sum(xs), |b| as real);
  }

  // ------------------------------------------------------------ the allowed change

  lemma {:induction false} LeastIs(xs: seq<real>)
    requires xs != []
    ensures Least(xs) in xs && forall i :: 0 <= i < |xs| ==> Least(xs) <= xs[i]
  {
    if |xs| > 1 {
      LeastIs(xs[1..]);
    }
  }

  /** The part of the headroom below the hard boundary that may be used up. */
  function Headroom(reference: real, p: Policy): real
    requires p.hardUpperBoundary.Some? && p.headroomFraction.Some?
  {
    p.headroomFraction.value * (p.hardUpperBoundary.value - reference)
  }

  predicate BelowBoundary(reference: real, p: Policy) {
    p.hardUpperBoundary.Some? ==> reference < p.hardUpperBoundary.value
  }

  /** At or above the hard boundary nothing is allowed.  Below it, without a cap there is an error;
      otherwise the allowed change is the tightest of the relative, the absolute and the headroom
      cap: within each that is configured, and equal to one of them. */
  lemma AllowedIsTightest(reference: real, p: Policy)
    ensures var allowed := AllowedRegression(reference, p);
            && (!BelowBoundary(reference, p) ==> allowed == Some(0.0))
            && (allowed.None? <==>
                  && BelowBoundary(reference, p) && (p.hardUpperBoundary.Some? ==> p.headroomFraction.None?)
                  && p.relativeCap.None? && p.absoluteCap.None?)
            && (allowed.Some? && BelowBoundary(reference, p) ==>
                  && (p.relativeCap.Some? ==> allowed.value <= reference * p.relativeCap.value)
                  && (p.absoluteCap.Some? ==> allowed.value <= p.absoluteCap.value)
                  && (p.hardUpperBoundary.Some? && p.headroomFraction.Some? ==> allowed.value <= Headroom(reference, p))
                  && (|| (p.relativeCap.Some? && allowed.value == reference * p.relativeCap.value)
                      || (p.absoluteCap.Some? && allowed.value == p.absoluteCap.value)
                      || (p.hardUpperBoundary.Some? && p.headroomFraction.Some?
                          && allowed.value == Headroom(reference, p))))
  {
    hide Least;
    var caps := Caps(reference, p);
    if caps != [] {
      LeastIs(caps);
      CapsAre(reference, p);
      var i :| 0 <= i < |caps| && caps[i] == Least(caps);
    }
  }

  lemma CapsAre(reference: real, p: Policy)
    ensures var caps := Caps(reference, p);
            && (p.relativeCap.Some? ==> reference * p.relativeCap.value in caps)
            && (p.absoluteCap.Some? ==> p.absoluteCap.value in caps)
            && (p.hardUpperBoundary.Some? && p.headroomFraction.Some? ==> Headroom(reference, p) in caps)
            && forall x :: x in caps ==>
                 || (p.relativeCap.Some? && x == reference * p.relativeCap.value)
                 || (p.absoluteCap.Some? && x == p.absoluteCap.value)
                 || (p.hardUpperBoundary.Some? && p.headroomFraction.Some? && x == Headroom(reference, p))
  {
    var caps := Caps(reference, p);
    assert p.relativeCap.Some? ==> caps[0] == reference * p.relativeCap.value;
    assert p.absoluteCap.Some? ==> caps[if p.relativeCap.Some? then 1 else 0] == p.absoluteCap.value;
    assert p.hardUpperBoundary.Some? && p.headroomFraction.Some? ==> caps[|caps| - 1] == Headroom(reference, p);
  }

  /** With a headroom fraction of at most one, a metric that uses up its whole allowance still does
      not cross its hard boundary. */
  lemma BoundaryHolds(reference: real, p: Policy)
    requires p.hardUpperBoundary.Some? && p.headroomFraction.Some? && p.headroomFraction.value <= 1.0
    requires reference < p.hardUpperBoundary.value
    ensures AllowedRegression(reference, p).Some?
    ensures reference + AllowedRegression(reference, p).value <= p.hardUpperBoundary.value
  {
    hide Least;
    var caps := Caps(reference, p);
    var headroom := p.hardUpperBoundary.value - reference;
    var share := p.headroomFraction.value * headroom;
    assert caps[|caps| - 1] == share;
    LeastIs(caps);
    Fraction(p.headroomFraction.value, headroom);
    assert share <= headroom;
  }

  lemma Fraction(f: real, x: real)
    requires 0.0 <= x
    ensures f <= 1.0 ==> f * x <= x
  {
    if f <= 1.0 {
      var d := 1.0 - f;
      assert d * x >= 0.0;
      assert d * x == x - f * x;
    }
  }
}
