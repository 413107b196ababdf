/** What the list of cleanup recommendations says of each observed index. */
module CleanupAdvice {
  import opened Sorting
  import opened Catalog
  import opened IndexCleanup

  /** The list gives this index this reason. */
  ghost predicate Flags(out: seq<Recommendation>, name: string, reason: Reason) {
    exists i :: 0 <= i < |out| && out[i].name == name && reason in out[i].reasons
  }

  /** Another index than the primary one has the same keys and an earlier name. */
  ghost predicate SameKeysEarlier(xs: seq<Observed>, x: Observed) {
    exists y :: y in xs && y.name != "_id_" && y.keys == x.keys && y.name != x.name && NameLe(y.name, x.name)
  }

  /** The keys of another index than the primary one begin with these and go on. */
  ghost predicate LongerKeys(xs: seq<Observed>, x: Observed) {
    exists y :: y in xs && y.name != "_id_" && |y.keys| > |x.keys| && y.keys[..|x.keys|] == x.keys
  }

  lemma {:induction false} ReasonsAre(xs: seq<Observed>, x: Observed, reason: Reason)
    ensures reason in ReasonsOf(Candidates(xs), x) <==>
            match reason
            case UNUSED => x.uses == 0
            case STALE_OPTIMIZER_OWNED => x.uses == 0 && x.owned
            case DUPLICATE => SameKeysEarlier(xs, x)
            case REDUNDANT_PREFIX => LongerKeys(xs, x)
  {
    hide NameLe;
    var cs := Candidates(xs);
    hide Candidates;
    if y :| y in xs && y.name != "_id_" && y.keys == x.keys && y.name != x.name && NameLe(y.name, x.name) {
      assert y in cs;
      var i :| 0 <= i < |cs| && cs[i] == y;
      assert Earlier(cs[i], x);
    }
    if i :| 0 <= i < |cs| && Earlier(cs[i], x) {
      assert cs[i] in cs;
    }
    if y :| y in xs && y.name != "_id_" && |y.keys| > |x.keys| && y.keys[..|x.keys|] == x.keys {
      assert y in cs;
      var i :| 0 <= i < |cs| && cs[i] == y;
      assert x.keys < cs[i].keys;
    }
    if i :| 0 <= i < |cs| && x.keys < cs[i].keys {
      assert cs[i] in cs;
    }
  }

  ghost predicate Recommends(cs: seq<Observed>, x: Observed, r: Recommendation) {
    ReasonsOf(cs, x) != {} && r == Recommendation(x.name, InOrder(ReasonsOf(cs, x)), x.owned)
  }

  function Head(cs: seq<Observed>, x: Observed): seq<Recommendation> {
    if ReasonsOf(cs, x) == {} then [] else [Recommendation(x.name, InOrder(ReasonsOf(cs, x)), x.owned)]
  }

  lemma HeadIs(cs: seq<Observed>, x: Observed)
    ensures |Head(cs, x)| <= 1 && forall r :: r in Head(cs, x) <==> Recommends(cs, x, r)
  {
    hide ReasonsOf, InOrder;
  }

  lemma {:induction false} ListedCons(ordered: seq<Observed>, cs: seq<Observed>)
    requires ordered != []
    ensures Listed(ordered, cs) == Head(cs, ordered[0]) + Listed(ordered[1..], cs)
  {
    hide ReasonsOf, InOrder;
  }

  lemma {:induction false} ListedAre(ordered: seq<Observed>, cs: seq<Observed>)
    ensures forall r :: r in Listed(ordered, cs) <==> exists x :: x in ordered && Recommends(cs, x, r)
  {
    if ordered != [] {
      ListedCons(ordered, cs);
      ListedAre(ordered[1..], cs);
      HeadIs(cs, ordered[0]);
      hide Listed, Recommends, Head;
      assert forall x :: x in ordered <==> x == ordered[0] || x in ordered[1..];
    }
  }

  lemma {:induction false} ListedInOrder(ordered: seq<Observed>, cs: seq<Observed>)
    requires Sorted(ordered, ByName)
    ensures Sorted(Listed(ordered, cs), RecommendedBefore)
  {
    hide NameLe;
    if ordered != [] {
      var rest := Listed(ordered[1..], cs);
      ListedCons(ordered, cs);
      ListedInOrder(ordered[1..], cs);
      ListedAre(ordered[1..], cs);
      HeadIs(cs, ordered[0]);
      hide Listed, ReasonsOf, InOrder, Head;
      forall j | 0 <= j < |rest|
        ensures NameLe(ordered[0].name, rest[j].name)
      {
        assert rest[j] in rest;
        var x :| x in ordered[1..] && Recommends(cs, x, rest[j]);
        var k :| 0 <= k < |ordered| - 1 && ordered[1..][k] == x;
        assert ByName(ordered[0], ordered[k + 1]);
      }
      forall h | h in Head(cs, ordered[0])
        ensures h.name == ordered[0].name
      {
      }
    }
  }

  predicate RecommendedBefore(r: Recommendation, q: Recommendation) { NameLe(r.name, q.name) }

  /** The observations are refused exactly when a name or a key list is empty, a count is negative or a
      name is observed twice. */
  lemma RefusedIff(xs: seq<Observed>)
    ensures Recommended(xs).None? <==>
            || (exists x :: x in xs && (x.name == "" || x.keys == [] || x.uses < 0))
            || (exists i, j :: 0 <= i < j < |xs| && xs[i].name == xs[j].name)
  {
    hide Listed, Sort;
    if x :| x in xs && (x.name == "" || x.keys == [] || x.uses < 0) {
      var i :| 0 <= i < |xs| && xs[i] == x;
    }
  }

  lemma {:induction false} OrderedCandidates(xs: seq<Observed>)
    ensures var ordered := Sort(Candidates(xs), ByName);
            Sorted(ordered, ByName) && forall y :: y in ordered <==> y in Candidates(xs)
  {
    hide Candidates, NameLe;
    NameOrder();
    SortSorted(Candidates(xs), ByName);
    SortPermutes(Candidates(xs), ByName);
  }

  /** Otherwise, for every observed index: UNUSED exactly without uses, STALE_OPTIMIZER_OWNED when it is
      moreover the optimizer's, DUPLICATE when an earlier name has the same keys, REDUNDANT_PREFIX when
      longer keys begin with its keys, and none of these for the primary index. */
  lemma AdviceIs(xs: seq<Observed>, x: Observed, reason: Reason)
    requires Recommended(xs).Some? && x in xs
    ensures Flags(Recommended(xs).value, x.name, reason) <==>
            && x.name != "_id_"
            && match reason
               case UNUSED => x.uses == 0
               case STALE_OPTIMIZER_OWNED => x.uses == 0 && x.owned
               case DUPLICATE => SameKeysEarlier(xs, x)
               case REDUNDANT_PREFIX => LongerKeys(xs, x)
  {
    hide ReasonsOf, Listed, Sort, NameLe, Candidates, Flags;
    OrderedCandidates(xs);
    ReasonsAre(xs, x, reason);
    Flagged(xs, Sort(Candidates(xs), ByName), x, reason);
  }

  /** Nothing else is listed: every recommendation has a reason and is one of an observed index other than
      the primary one, with its owner, and the list is in name order. */
  lemma AdviceShape(xs: seq<Observed>)
    requires Recommended(xs).Some?
    ensures var out := Recommended(xs).value;
            && (forall r :: r in out ==>
                  r.reasons != [] && exists y :: y in xs && y.name != "_id_" && y.name == r.name && y.owned == r.owned)
            && (forall i, j :: 0 <= i < j < |out| ==> NameLe(out[i].name, out[j].name))
  {
    hide ReasonsOf, InOrder, Listed, Sort, NameLe;
    var cs, out := Candidates(xs), Recommended(xs).value;
    var ordered := Sort(cs, ByName);
    OrderedCandidates(xs);
    ListedAre(ordered, cs);
    ListedInOrder(ordered, cs);
    hide Candidates;
    forall r | r in out
      ensures r.reasons != [] && exists y :: y in xs && y.name != "_id_" && y.name == r.name && y.owned == r.owned
    {
      var y :| y in ordered && Recommends(cs, y, r);
      InOrderIs(ReasonsOf(cs, y));
      assert y in cs;
    }
    forall i, j | 0 <= i < j < |out|
      ensures NameLe(out[i].name, out[j].name)
    {
      assert RecommendedBefore(out[i], out[j]);
    }
  }

  lemma {:induction false} Flagged(xs: seq<Observed>, ordered: seq<Observed>, x: Observed, reason: Reason)
    requires Valid(xs) && x in xs && (forall y :: y in ordered <==> y in Candidates(xs))
    ensures Flags(Listed(ordered, Candidates(xs)), x.name, reason)
            <==> x.name != "_id_" && reason in ReasonsOf(Candidates(xs), x)
  {
    var cs := Candidates(xs);
    var out := Listed(ordered, cs);
    ListedAre(ordered, cs);
    hide ReasonsOf, InOrder, Listed;
    if i :| 0 <= i < |out| && out[i].name == x.name && reason in out[i].reasons {
      assert out[i] in out;
      var y :| y in ordered && Recommends(cs, y, out[i]);
      InOrderIs(ReasonsOf(cs, y));
      OnceByName(xs, x, y);
    }
    if x.name != "_id_" && reason in ReasonsOf(cs, x) {
      InOrderIs(ReasonsOf(cs, x));
      var r := Recommendation(x.name, InOrder(ReasonsOf(cs, x)), x.owned);
      assert Recommends(cs, x, r) && x in ordered;
      assert r in out;
      var i :| 0 <= i < |out| && out[i] == r;
    }
  }
}
