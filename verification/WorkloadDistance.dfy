/** Total variation distance between workload distributions: a pseudometric on shares by name. */
module WorkloadDistance {
  import opened Sorting
  import opened Catalog

  datatype Share = Share(name: string, fraction: real)

  type Distribution = map<string, real>

  const TOLERANCE: real := 0.000000001

  /** `get(name, 0.0)`. */
  function Fraction(d: Distribution, name: string): real {
    if name in d then d[name] else 0.0
  }

  function Abs(x: real): real { if x < 0.0 then -x else x }

  function SumOver(names: set<string>, f: string -> real): real
    decreases |names|
  {
    if names == {} then 0.0
    else
      var x := Least(names);
      f(x) + SumOver(names - {x}, f)
  }

  function Gap(a: Distribution, b: Distribution): string -> real {
    n => Abs(Fraction(a, n) - Fraction(b, n))
  }

  function Distance(a: Distribution, b: Distribution): real {
    0.5 * SumOver(a.Keys + b.Keys, Gap(a, b))
  }

  function Shares(d: Distribution): string -> real {
    n => Fraction(d, n)
  }

  function Total(d: Distribution): real {
    SumOver(d.Keys, Shares(d))
  }

  /** What validation accepts: no shares at all, or probabilities that add up to one. */
  predicate Accepted(d: Distribution) {
    && (forall n :: n in d ==> n != "" && 0.0 <= d[n] <= 1.0)
    && (d != map[] ==> Abs(Total(d) - 1.0) <= TOLERANCE)
  }

  // ------------------------------------------------------------ sums

  lemma {:induction false} SumWithout(names: set<string>, x: string, f: string -> real)
    requires x in names
    ensures SumOver(names, f) == f(x) + SumOver(names - {x}, f)
    decreases |names|
  {
    var y := Least(names);
    if x != y {
      SumWithout(names - {y}, x, f);
      LeastOfRest(names, x);
      assert names - {y} - {x} == names - {x} - {y};
    }
  }

  lemma LeastOfRest(names: set<string>, x: string)
    requires x in names && x != Least(names)
    ensures names - {x} != {} && Least(names - {x}) == Least(names)
  {
    NameOrder();
    assert Least(names) in names - {x};
    assert Least(names - {x}) in names;
  }

  /** Names on which `f` vanishes do not count. */
  lemma {:induction false} SumExtended(names: set<string>, more: set<string>, f: string -> real)
    requires names <= more && forall n :: n in more && n !in names ==> f(n) == 0.0
    ensures SumOver(names, f) == SumOver(more, f)
    decreases |more|
  {
    if x :| x in more && x !in names {
      SumWithout(more, x, f);
      SumExtended(names, more - {x}, f);
    } else {
      assert names == more;
    }
  }

  lemma {:induction false} SumBelow(names: set<string>, f: string -> real, g: string -> real, h: string -> real)
    requires forall n :: n in names ==> f(n) <= g(n) + h(n)
    ensures SumOver(names, f) <= SumOver(names, g) + SumOver(names, h)
    decreases |names|
  {
    if names != {} {
      SumBelow(names - {Least(names)}, f, g, h);
    }
  }

  lemma {:induction false} SumSame(names: set<string>, f: string -> real, g: string -> real)
    requires forall n :: n in names ==> f(n) == g(n)
    ensures SumOver(names, f) == SumOver(names, g)
    decreases |names|
  {
    if names != {} {
      SumSame(names - {Least(names)}, f, g);
    }
  }

  lemma {:induction false} SumZero(names: set<string>, f: string -> real)
    requires forall n :: n in names ==> f(n) >= 0.0
    ensures SumOver(names, f) >= 0.0
    ensures SumOver(names, f) == 0.0 <==> forall n :: n in names ==> f(n) == 0.0
    decreases |names|
  {
    if names != {} {
      SumZero(names - {Least(names)}, f);
      assert forall n :: n in names ==> n == Least(names) || n in names - {Least(names)};
    }
  }

  // ------------------------------------------------------------ a pseudometric

  /** The distance may be summed over any names that include both supports. */
  lemma {:induction false} DistanceOver(a: Distribution, b: Distribution, names: set<string>)
    requires a.Keys + b.Keys <= names
    ensures Distance(a, b) == 0.5 * SumOver(names, Gap(a, b))
  {
    SumExtended(a.Keys + b.Keys, names, Gap(a, b));
  }

  /** Never negative, and zero exactly when all shares agree, an absent one read as zero. */
  lemma DistanceZero(a: Distribution, b: Distribution)
    ensures Distance(a, b) >= 0.0
    ensures Distance(a, b) == 0.0 <==> forall n :: Fraction(a, n) == Fraction(b, n)
  {
    SumZero(a.Keys + b.Keys, Gap(a, b));
    if Distance(a, b) == 0.0 {
      forall n
        ensures Fraction(a, n) == Fraction(b, n)
      {
        if n in a.Keys + b.Keys {
          assert Gap(a, b)(n) == 0.0;
        }
      }
    }
  }

  lemma DistanceSymmetric(a: Distribution, b: Distribution)
    ensures Distance(a, b) == Distance(b, a)
  {
    assert a.Keys + b.Keys == b.Keys + a.Keys;
    SumSame(a.Keys + b.Keys, Gap(a, b), Gap(b, a));
  }

  lemma GapTriangle(a: Distribution, b: Distribution, c: Distribution)
    ensures forall n :: Gap(a, c)(n) <= Gap(a, b)(n) + Gap(b, c)(n)
  {
    hide Fraction;
  }

  lemma DistanceTriangle(a: Distribution, b: Distribution, c: Distribution)
    ensures Distance(a, c) <= Distance(a, b) + Distance(b, c)
  {
    var names := a.Keys + b.Keys + c.Keys;
    hide Gap, Distance, SumOver;
    DistanceOver(a, b, names);
    DistanceOver(b, c, names);
    DistanceOver(a, c, names);
    GapTriangle(a, b, c);
    SumBelow(names, Gap(a, c), Gap(a, b), Gap(b, c));
  }

  /** Accepted distributions are at most 1 + 1e-9 apart. */
  lemma DistanceBounded(a: Distribution, b: Distribution)
    requires Accepted(a) && Accepted(b)
    ensures Distance(a, b) <= 1.0 + TOLERANCE
  {
    hide TOLERANCE;
    var names := a.Keys + b.Keys;
    SumBelow(names, Gap(a, b), Shares(a), Shares(b));
    SumExtended(a.Keys, names, Shares(a));
    SumExtended(b.Keys, names, Shares(b));
    AtMostOne(a);
    AtMostOne(b);
  }

  lemma AtMostOne(d: Distribution)
    requires Accepted(d)
    ensures Total(d) <= 1.0 + TOLERANCE
  {
  }

  // ------------------------------------------------------------ validation

  /** The dictionary a valid list of shares builds. */
  function AsDistribution(shares: seq<Share>): Distribution {
    if shares == [] then map[]
    else AsDistribution(shares[..|shares| - 1])[shares[|shares| - 1].name := shares[|shares| - 1].fraction]
  }

  ghost predicate UniqueNames(shares: seq<Share>) {
    forall i, j :: 0 <= i < j < |shares| ==> shares[i].name != shares[j].name
  }

  ghost predicate WellFormed(shares: seq<Share>) {
    && UniqueNames(shares)
    && forall i :: 0 <= i < |shares| ==> shares[i].name != "" && 0.0 <= shares[i].fraction <= 1.0
  }

  lemma {:induction false} KeysAre(shares: seq<Share>)
    ensures forall n :: n in AsDistribution(shares) <==> exists i :: 0 <= i < |shares| && shares[i].name == n
    ensures forall n :: n in AsDistribution(shares) ==>
              exists i :: 0 <= i < |shares| && shares[i] == Share(n, AsDistribution(shares)[n])
  {
    if shares != [] {
      var init := shares[..|shares| - 1];
      KeysAre(init);
      assert forall i :: 0 <= i < |init| ==> init[i] == shares[i];
    }
  }

  lemma {:induction false} Extended(init: seq<Share>, share: Share)
    ensures AsDistribution(init + [share]) == AsDistribution(init)[share.name := share.fraction]
    ensures WellFormed(init + [share]) <==>
            WellFormed(init) && share.name != "" && share.name !in AsDistribution(init) && 0.0 <= share.fraction <= 1.0
  {
    var shares := init + [share];
    assert shares[..|init|] == init;
    KeysAre(init);
    if WellFormed(shares) {
      PrefixWellFormed(shares, |init|);
      assert forall i :: 0 <= i < |init| ==> shares[i] == init[i];
      assert shares[|init|] == share;
    }
  }

  lemma PrefixWellFormed(shares: seq<Share>, i: nat)
    requires WellFormed(shares) && i <= |shares|
    ensures WellFormed(shares[..i])
  {
  }

  /** The validation loop: `None` stands for the raised error. */
  method Validate(shares: seq<Share>) returns (r: Option<Distribution>)
    ensures r.Some? <==> WellFormed(shares) && Accepted(AsDistribution(shares))
    ensures r.Some? ==> r.value == AsDistribution(shares)
  {
    hide WellFormed, AsDistribution;
    var values: Distribution := map[];
    assert values == AsDistribution([]) && WellFormed([]) by { Empty(); }
    for i := 0 to |shares|
      invariant values == AsDistribution(shares[..i]) && WellFormed(shares[..i])
    {
      var share := shares[i];
      assert shares[..i + 1] == shares[..i] + [share];
      Extended(shares[..i], share);
      if share.name == "" || share.name in values || !(0.0 <= share.fraction <= 1.0) {
        if WellFormed(shares) {
          PrefixWellFormed(shares, i + 1);
        }
        return None;
      }
      values := values[share.name := share.fraction];
    }
    assert shares[..|shares|] == shares;
    FractionsInRange(shares);
    if values != map[] && Abs(Total(values) - 1.0) > TOLERANCE {
      return None;
    }
    return Some(values);
  }

  lemma {:induction false} FractionsInRange(shares: seq<Share>)
    requires WellFormed(shares)
    ensures forall n :: n in AsDistribution(shares) ==> n != "" && 0.0 <= AsDistribution(shares)[n] <= 1.0
  {
    KeysAre(shares);
  }

  lemma Empty()
    ensures AsDistribution([]) == map[] && WellFormed([])
  {
  }

  /** `total_variation_distance` on lists of shares. */
  method TotalVariationDistance(baseline: seq<Share>, observed: seq<Share>) returns (r: Option<real>)
    ensures r.Some? <==> WellFormed(baseline) && Accepted(AsDistribution(baseline))
                         && WellFormed(observed) && Accepted(AsDistribution(observed))
    ensures r.Some? ==> r.value == Distance(AsDistribution(baseline), AsDistribution(observed))
  {
    var b := Validate(baseline);
    if b.None? {
      return None;
    }
    var o := Validate(observed);
    if o.None? {
      return None;
    }
    return Some(Distance(b.value, o.value));
  }

  // ------------------------------------------------------------ on lists of shares

  function SumOfFractions(shares: seq<Share>): real {
    if shares == [] then 0.0 else SumOfFractions(shares[..|shares| - 1]) + shares[|shares| - 1].fraction
  }

  lemma {:induction false} TotalOfList(shares: seq<Share>)
    requires WellFormed(shares)
    ensures Total(AsDistribution(shares)) == SumOfFractions(shares)
  {
    if shares != [] {
      var init, last := shares[..|shares| - 1], shares[|shares| - 1];
      PrefixWellFormed(shares, |shares| - 1);
      TotalOfList(init);
      Extended(init, last);
      assert shares == init + [last];
      TotalGrows(AsDistribution(init), last);
    }
  }

  lemma TotalGrows(d: Distribution, share: Share)
    requires share.name !in d
    ensures Total(d[share.name := share.fraction]) == Total(d) + share.fraction
  {
    var more := d[share.name := share.fraction];
    SumWithout(more.Keys, share.name, Shares(more));
    assert more.Keys - {share.name} == d.Keys;
    SumSame(d.Keys, Shares(more), Shares(d));
  }

  lemma {:induction false} NonEmpty(shares: seq<Share>)
    ensures AsDistribution(shares) == map[] <==> shares == []
  {
    if shares != [] {
      KeysAre(shares);
      hide AsDistribution;
      assert shares[0].name in AsDistribution(shares);
    }
  }

  lemma {:induction false} AcceptedIs(shares: seq<Share>)
    requires WellFormed(shares)
    ensures Accepted(AsDistribution(shares)) <==>
            shares != [] ==>
              SumOfFractions(shares) - 1.0 <= 0.000000001 && 1.0 - SumOfFractions(shares) <= 0.000000001
  {
    TotalOfList(shares);
    FractionsInRange(shares);
    NonEmpty(shares);
    hide AsDistribution, SumOfFractions, Total, WellFormed;
  }

  /** A list is accepted exactly when its names are unique and not empty, its fractions between zero and one,
      and it is empty or they add up to one within 10⁻⁹. */
  lemma {:induction false} ValidIff(shares: seq<Share>)
    ensures WellFormed(shares) && Accepted(AsDistribution(shares)) <==>
            && (forall i, j :: 0 <= i < j < |shares| ==> shares[i].name != shares[j].name)
            && (forall i :: 0 <= i < |shares| ==>
                  shares[i].name != "" && shares[i].fraction >= 0.0 && shares[i].fraction <= 1.0)
            && (shares != [] ==>
                  SumOfFractions(shares) - 1.0 <= 0.000000001 && 1.0 - SumOfFractions(shares) <= 0.000000001)
  {
    hide AsDistribution, SumOfFractions, Accepted;
    if WellFormed(shares) {
      AcceptedIs(shares);
    }
  }

  /** Distributions without a common name are apart by half of all they hold. */
  lemma DisjointDistance(a: Distribution, b: Distribution)
    requires a.Keys !! b.Keys && (forall n :: n in a ==> a[n] >= 0.0) && (forall n :: n in b ==> b[n] >= 0.0)
    ensures Distance(a, b) == (Total(a) + Total(b)) / 2.0
  {
    hide SumOver;
    SumSplit(a.Keys, b.Keys, Gap(a, b));
    SumSame(a.Keys, Gap(a, b), Shares(a));
    SumSame(b.Keys, Gap(a, b), Shares(b));
  }

  lemma {:induction false} SumSplit(names: set<string>, more: set<string>, f: string -> real)
    requires names !! more
    ensures SumOver(names + more, f) == SumOver(names, f) + SumOver(more, f)
    decreases |names|
  {
    if names == {} {
      assert names + more == more;
    } else {
      var x :| x in names;
      SumWithout(names, x, f);
      SumWithout(names + more, x, f);
      assert (names + more) - {x} == (names - {x}) + more;
      SumSplit(names - {x}, more, f);
    }
  }
}
