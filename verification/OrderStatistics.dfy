/** Percentiles by linear interpolation between order statistics, as the benchmark computes
    latencies and the admission gate its bootstrap bounds. */
module OrderStatistics {
  import opened Sorting
  import opened Catalog

  predicate RealLe(a: real, b: real) { a <= b }

  function Min(a: real, b: real): real { if a <= b then a else b }

  function Max(a: real, b: real): real { if a <= b then b else a }

  function Ordered(values: seq<real>): (r: seq<real>)
    ensures |r| == |values|
    ensures forall i, j :: 0 <= i <= j < |r| ==> r[i] <= r[j]
    ensures multiset(r) == multiset(values)
  {
    SortSorted(values, RealLe);
    SortPermutes(values, RealLe);
    Sort(values, RealLe)
  }

  /** Where the percentile falls among `n` ordered values. */
  function Rank(n: nat, p: real): (r: real)
    requires 0 < n && 0.0 <= p <= 100.0
    ensures 0.0 <= r <= (n - 1) as real
  {
    RankBounds((n - 1) as real, p);
    (n - 1) as real * p / 100.0
  }

  lemma RankBounds(x: real, p: real)
    requires 0.0 <= x && 0.0 <= p <= 100.0
    ensures 0.0 <= x * p / 100.0 <= x
  {
    assert x * p <= x * 100.0;
    assert 0.0 <= x * p;
  }

  /** Linear interpolation between neighbouring order statistics. */
  function At(ordered: seq<real>, rank: real): real
    requires 0 < |ordered| && 0.0 <= rank <= (|ordered| - 1) as real
  {
    Step(ordered[rank.Floor], ordered[Above(ordered, rank)], rank - rank.Floor as real)
  }

  /** The upper neighbour of a rank. */
  function Above(ordered: seq<real>, rank: real): int
    requires 0 < |ordered| && 0.0 <= rank <= (|ordered| - 1) as real
  {
    if rank.Floor + 1 < |ordered| then rank.Floor + 1 else |ordered| - 1
  }

  function Step(a: real, b: real, t: real): real {
    a + (b - a) * t
  }

  function Percentile(values: seq<real>, p: real): real
    requires values != [] && 0.0 <= p <= 100.0
  {
    At(Ordered(values), Rank(|values|, p))
  }

  // ------------------------------------------------------------ order statistics are monotone

  /** Insertion puts the clamp of `x` between its new neighbours at every place. */
  lemma {:induction false} InsertAt(x: real, xs: seq<real>, i: nat)
    requires forall j, k :: 0 <= j <= k < |xs| ==> xs[j] <= xs[k]
    requires i <= |xs|
    ensures Insert(x, xs, RealLe)[i]
            == (if i == 0 then (if xs == [] then x else Min(x, xs[0]))
                else if i == |xs| then Max(xs[i - 1], x)
                else Max(xs[i - 1], Min(x, xs[i])))
  {
    if xs != [] && x > xs[0] && i > 0 {
      InsertAt(x, xs[1..], i - 1);
    }
  }

  /** Pointwise smaller samples have pointwise smaller order statistics. */
  lemma {:induction false} SortMonotone(xs: seq<real>, ys: seq<real>)
    requires |xs| == |ys| && forall i :: 0 <= i < |xs| ==> xs[i] <= ys[i]
    ensures forall i :: 0 <= i < |xs| ==> Sort(xs, RealLe)[i] <= Sort(ys, RealLe)[i]
  {
    if xs != [] {
      SortMonotone(xs[1..], ys[1..]);
      SortSorted(xs[1..], RealLe);
      SortSorted(ys[1..], RealLe);
      forall i | 0 <= i < |xs|
        ensures Sort(xs, RealLe)[i] <= Sort(ys, RealLe)[i]
      {
        InsertAt(xs[0], Sort(xs[1..], RealLe), i);
        InsertAt(ys[0], Sort(ys[1..], RealLe), i);
      }
    }
  }

  // ------------------------------------------------------------ interpolation

  lemma Scale(slope: real, t: real, u: real)
    requires 0.0 <= slope && t <= u
    ensures slope * t <= slope * u
  {
  }

  lemma NonNegative(x: real, y: real)
    requires 0.0 <= x && 0.0 <= y
    ensures 0.0 <= x * y
  {
  }

  lemma StepBetween(a: real, b: real, t: real)
    requires a <= b && 0.0 <= t <= 1.0
    ensures a <= Step(a, b, t) <= b
  {
    Scale(b - a, 0.0, t);
    Scale(b - a, t, 1.0);
  }

  lemma StepApart(a: real, b: real, c: real, d: real, t: real)
    ensures Step(c, d, t) - Step(a, b, t) == (c - a) * (1.0 - t) + (d - b) * t
  {
  }

  lemma StepMonotone(a: real, b: real, c: real, d: real, t: real)
    requires a <= c && b <= d && 0.0 <= t <= 1.0
    ensures Step(a, b, t) <= Step(c, d, t)
  {
    hide Step;
    StepApart(a, b, c, d, t);
    var x, y, z := c - a, 1.0 - t, d - b;
    NonNegative(x, y);
    NonNegative(z, t);
    var p, q := x * y, z * t;
    assert p + q >= 0.0;
    assert Step(c, d, t) - Step(a, b, t) == p + q;
  }

  /** Interpolation stays between its neighbours. */
  lemma AtBetween(ordered: seq<real>, rank: real)
    requires 0 < |ordered| && 0.0 <= rank <= (|ordered| - 1) as real
    requires forall i, j :: 0 <= i <= j < |ordered| ==> ordered[i] <= ordered[j]
    ensures ordered[rank.Floor] <= At(ordered, rank) <= ordered[Above(ordered, rank)]
  {
    hide Step;
    StepBetween(ordered[rank.Floor], ordered[Above(ordered, rank)], rank - rank.Floor as real);
  }

  lemma AtMonotoneInRank(ordered: seq<real>, r: real, s: real)
    requires 0 < |ordered| && 0.0 <= r <= s <= (|ordered| - 1) as real
    requires forall i, j :: 0 <= i <= j < |ordered| ==> ordered[i] <= ordered[j]
    ensures At(ordered, r) <= At(ordered, s)
  {
    if r.Floor == s.Floor {
      Scale(ordered[Above(ordered, r)] - ordered[r.Floor], r - r.Floor as real, s - s.Floor as real);
    } else {
      AtBetween(ordered, r);
      AtBetween(ordered, s);
      assert ordered[r.Floor + 1] <= ordered[s.Floor];
    }
  }

  lemma AtMonotone(xs: seq<real>, ys: seq<real>, rank: real)
    requires 0 < |xs| == |ys| && 0.0 <= rank <= (|xs| - 1) as real
    requires forall i :: 0 <= i < |xs| ==> xs[i] <= ys[i]
    ensures At(xs, rank) <= At(ys, rank)
  {
    hide Step;
    var k := Above(xs, rank);
    StepMonotone(xs[rank.Floor], xs[k], ys[rank.Floor], ys[k], rank - rank.Floor as real);
  }

  // ------------------------------------------------------------ percentiles

  /** A percentile lies between the least and the greatest value. */
  lemma PercentileBetween(values: seq<real>, p: real)
    requires values != [] && 0.0 <= p <= 100.0
    ensures exists low, high :: low in values && high in values && (forall v :: v in values ==> low <= v <= high)
              && low <= Percentile(values, p) <= high
  {
    var ordered := Ordered(values);
    var low, high := ordered[0], ordered[|ordered| - 1];
    SameElements(ordered, values);
    AtBetween(ordered, Rank(|values|, p));
    forall v | v in values
      ensures low <= v <= high
    {
      assert v in ordered;
    }
    assert low in values && high in values;
  }

  lemma RankMonotone(n: nat, p: real, q: real)
    requires 0 < n && 0.0 <= p <= q <= 100.0
    ensures Rank(n, p) <= Rank(n, q)
  {
    Scale((n - 1) as real, p, q);
    var least, most := (n - 1) as real * p, (n - 1) as real * q;
    assert least / 100.0 <= most / 100.0;
  }

  /** A larger percentile is at least as large. */
  lemma PercentileMonotoneInP(values: seq<real>, p: real, q: real)
    requires values != [] && 0.0 <= p <= q <= 100.0
    ensures Percentile(values, p) <= Percentile(values, q)
  {
    RankMonotone(|values|, p, q);
    AtMonotoneInRank(Ordered(values), Rank(|values|, p), Rank(|values|, q));
  }

  /** Pointwise larger values have a percentile at least as large. */
  lemma PercentileMonotone(xs: seq<real>, ys: seq<real>, p: real)
    requires xs != [] && |xs| == |ys| && 0.0 <= p <= 100.0
    requires forall i :: 0 <= i < |xs| ==> xs[i] <= ys[i]
    ensures Percentile(xs, p) <= Percentile(ys, p)
  {
    SortMonotone(xs, ys);
    AtMonotone(Ordered(xs), Ordered(ys), Rank(|xs|, p));
  }

  function Shifted(values: seq<real>, c: real): (r: seq<real>)
    ensures |r| == |values| && forall i :: 0 <= i < |r| ==> r[i] == values[i] - c
  {
    seq(|values|, i requires 0 <= i < |values| => values[i] - c)
  }

  lemma ShiftedHead(x: real, xs: seq<real>, c: real)
    ensures Shifted([x] + xs, c) == [x - c] + Shifted(xs, c)
  {
  }

  lemma {:induction false} InsertShifted(x: real, xs: seq<real>, c: real)
    ensures Shifted(Insert(x, xs, RealLe), c) == Insert(x - c, Shifted(xs, c), RealLe)
  {
    if xs != [] {
      var rest := xs[1..];
      ShiftedHead(xs[0], rest, c);
      assert xs == [xs[0]] + rest;
      hide Shifted;
      if x <= xs[0] {
        ShiftedHead(x, xs, c);
      } else {
        InsertShifted(x, rest, c);
        ShiftedHead(xs[0], Insert(x, rest, RealLe), c);
      }
    }
  }

  lemma {:induction false} SortShifted(xs: seq<real>, c: real)
    ensures Shifted(Sort(xs, RealLe), c) == Sort(Shifted(xs, c), RealLe)
  {
    if xs != [] {
      SortShifted(xs[1..], c);
      InsertShifted(xs[0], Sort(xs[1..], RealLe), c);
      assert Shifted(xs, c)[1..] == Shifted(xs[1..], c);
    }
  }

  lemma OrderedShifted(values: seq<real>, c: real)
    ensures Ordered(Shifted(values, c)) == Shifted(Ordered(values), c)
  {
    hide Shifted, Sort;
    SortShifted(values, c);
  }

  /** Subtracting a margin from every value subtracts it from the percentile. */
  lemma PercentileShifted(values: seq<real>, c: real, p: real)
    requires values != [] && 0.0 <= p <= 100.0
    ensures Percentile(Shifted(values, c), p) == Percentile(values, p) - c
  {
    OrderedShifted(values, c);
    hide Ordered, Step, Rank;
    var ordered := Ordered(values);
    var rank := Rank(|values|, p);
    StepShifted(ordered[rank.Floor], ordered[Above(ordered, rank)], rank - rank.Floor as real, c);
  }

  lemma StepShifted(a: real, b: real, t: real, c: real)
    ensures Step(a - c, b - c, t) == Step(a, b, t) - c
  {
  }

  /** The latency percentile of a window; a window without successes has none. */
  function LatencyPercentile(values: seq<real>, p: real): Option<real>
    requires 0.0 <= p <= 100.0
  {
    if values == [] then None else Some(Percentile(values, p))
  }

  /** The three reported latencies are in order and within the measured ones. */
  lemma LatencyTail(values: seq<real>)
    ensures var p50, p95 := LatencyPercentile(values, 50.0), LatencyPercentile(values, 95.0);
            var p99 := LatencyPercentile(values, 99.0);
            if values == [] then p50.None? && p95.None? && p99.None?
            else p50.value <= p95.value <= p99.value && exists v :: v in values && p99.value <= v
  {
    hide Percentile;
    if values != [] {
      PercentileMonotoneInP(values, 50.0, 95.0);
      PercentileMonotoneInP(values, 95.0, 99.0);
      PercentileBetween(values, 99.0);
    }
  }

  // ------------------------------------------------------------ the interpolation

  lemma FloorOf(k: int, t: real)
    requires 0.0 <= t < 1.0
    ensures (k as real + t).Floor == k
  {
  }

  lemma RankIs(n: nat, p: real, rank: real)
    requires 0 < n && 0.0 <= p <= 100.0 && (n - 1) as real * p == 100.0 * rank
    ensures Rank(n, p) == rank
  {
    var scaled := (n - 1) as real * p;
    assert scaled / 100.0 == rank;
  }

  /** The percentile at `k` of the `n - 1` steps between the ordered values is the k-th of them, and between
      two steps it moves linearly from one to the next. */
  lemma PercentileInterpolates(values: seq<real>, p: real, k: nat, t: real)
    requires values != [] && 0.0 <= p <= 100.0 && k < |values| && 0.0 <= t < 1.0
    requires (|values| - 1) as real * p == 100.0 * (k as real + t)
    ensures t == 0.0 ==> Percentile(values, p) == Ordered(values)[k]
    ensures t > 0.0 ==> k + 1 < |values|
                        && Percentile(values, p) == (1.0 - t) * Ordered(values)[k] + t * Ordered(values)[k + 1]
  {
    RankIs(|values|, p, k as real + t);
    FloorOf(k, t);
    hide Ordered;
    var ordered := Ordered(values);
    if t == 0.0 {
      Ends(ordered[k], ordered[Above(ordered, k as real)]);
    } else {
      Convex(ordered[k], ordered[k + 1], t);
    }
  }

  lemma Ends(a: real, b: real)
    ensures Step(a, b, 0.0) == a
  {
  }

  lemma Convex(a: real, b: real, t: real)
    ensures Step(a, b, t) == (1.0 - t) * a + t * b
  {
  }
}
