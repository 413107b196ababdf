/** Cleanup advice: which indexes are flagged, and why following the advice keeps every key prefix
    served. */
module IndexCleanup {
  import opened Sorting
  import opened Catalog

  datatype Reason = UNUSED | DUPLICATE | REDUNDANT_PREFIX | STALE_OPTIMIZER_OWNED

  datatype Observed = Observed(name: string, keys: Keys, uses: int, owned: bool)

  datatype Recommendation = Recommendation(name: string, reasons: seq<Reason>, owned: bool)

  // ------------------------------------------------------------ what is flagged

  predicate Valid(xs: seq<Observed>) {
    && (forall i, j :: 0 <= i < j < |xs| ==> xs[i].name != xs[j].name)
    && (forall i :: 0 <= i < |xs| ==> xs[i].name != "" && xs[i].keys != [] && xs[i].uses >= 0)
  }

  function Candidates(xs: seq<Observed>): (r: seq<Observed>)
    ensures forall x :: x in r <==> x in xs && x.name != "_id_"
  {
    if xs == [] then [] else (if xs[0].name == "_id_" then [] else [xs[0]]) + Candidates(xs[1..])
  }

  /** Another candidate has the same keys and an earlier name. */
  predicate Duplicate(cs: seq<Observed>, x: Observed) {
    exists i :: 0 <= i < |cs| && Earlier(cs[i], x)
  }

  predicate Earlier(y: Observed, x: Observed) {
    y.keys == x.keys && y.name != x.name && NameLe(y.name, x.name)
  }

  /** The keys are a proper prefix of another candidate's. */
  predicate RedundantPrefix(cs: seq<Observed>, x: Observed) {
    exists i :: 0 <= i < |cs| && x.keys < cs[i].keys
  }

  function Usage(x: Observed): set<Reason> {
    if x.uses != 0 then {} else if x.owned then {UNUSED, STALE_OPTIMIZER_OWNED} else {UNUSED}
  }

  function ReasonsOf(cs: seq<Observed>, x: Observed): set<Reason> {
    Usage(x) + (if Duplicate(cs, x) then {DUPLICATE} else {})
    + (if RedundantPrefix(cs, x) then {REDUNDANT_PREFIX} else {})
  }

  function Value(r: Reason): string {
    match r
    case UNUSED => "UNUSED"
    case DUPLICATE => "DUPLICATE"
    case REDUNDANT_PREFIX => "REDUNDANT_PREFIX"
    case STALE_OPTIMIZER_OWNED => "STALE_OPTIMIZER_OWNED"
  }

  const ALL_REASONS: seq<Reason> := [DUPLICATE, REDUNDANT_PREFIX, STALE_OPTIMIZER_OWNED, UNUSED]

  function Selected(all: seq<Reason>, reasons: set<Reason>): seq<Reason> {
    if all == [] then [] else (if all[0] in reasons then [all[0]] else []) + Selected(all[1..], reasons)
  }

  /** The reasons of one index as they are listed. */
  function InOrder(reasons: set<Reason>): seq<Reason> {
    Selected(ALL_REASONS, reasons)
  }

  ghost predicate ByValue(rs: seq<Reason>) {
    forall i, j :: 0 <= i < j < |rs| ==> rs[i] != rs[j] && NameLe(Value(rs[i]), Value(rs[j]))
  }

  lemma PrependByValue(x: Reason, rest: seq<Reason>)
    requires ByValue(rest) && forall r :: r in rest ==> r != x && NameLe(Value(x), Value(r))
    ensures ByValue([x] + rest)
  {
    hide Value, NameLe;
    var all := [x] + rest;
    assert forall j :: 1 <= j < |all| ==> all[j] == rest[j - 1] && rest[j - 1] in rest;
  }

  lemma TailByValue(all: seq<Reason>)
    requires all != [] && ByValue(all)
    ensures ByValue(all[1..]) && forall r :: r in all[1..] ==> r != all[0] && NameLe(Value(all[0]), Value(r))
  {
    hide Value, NameLe;
  }

  lemma {:induction false} SelectedIs(all: seq<Reason>, reasons: set<Reason>)
    requires ByValue(all)
    ensures forall r :: r in Selected(all, reasons) <==> r in all && r in reasons
    ensures ByValue(Selected(all, reasons))
  {
    hide Value, NameLe, ByValue;
    if all == [] {
      assert ByValue([]) by { NoneByValue(); }
    } else {
      TailByValue(all);
      SelectedIs(all[1..], reasons);
      assert forall r :: r in all <==> r == all[0] || r in all[1..];
      if all[0] in reasons {
        PrependByValue(all[0], Selected(all[1..], reasons));
      } else {
        assert Selected(all, reasons) == Selected(all[1..], reasons);
      }
    }
  }

  lemma NoneByValue()
    ensures ByValue([])
  {
  }

  /** Exactly the reasons found, each once, in the order of their values. */
  lemma InOrderIs(reasons: set<Reason>)
    ensures forall r :: r in InOrder(reasons) <==> r in reasons
    ensures ByValue(InOrder(reasons))
  {
    hide Selected;
    assert ByValue(ALL_REASONS);
    SelectedIs(ALL_REASONS, reasons);
    forall r: Reason
      ensures r in ALL_REASONS
    {
      match r
      case DUPLICATE => assert r == ALL_REASONS[0];
      case REDUNDANT_PREFIX => assert r == ALL_REASONS[1];
      case STALE_OPTIMIZER_OWNED => assert r == ALL_REASONS[2];
      case UNUSED => assert r == ALL_REASONS[3];
    }
  }

  predicate ByName(a: Observed, b: Observed) { NameLe(a.name, b.name) }

  function Listed(ordered: seq<Observed>, cs: seq<Observed>): seq<Recommendation> {
    if ordered == [] then []
    else
      var x := ordered[0];
      (if ReasonsOf(cs, x) == {} then [] else [Recommendation(x.name, InOrder(ReasonsOf(cs, x)), x.owned)])
      + Listed(ordered[1..], cs)
  }

  /** `None` stands for the raised error. */
  function Recommended(xs: seq<Observed>): Option<seq<Recommendation>> {
    if !Valid(xs) then None else var cs := Candidates(xs); Some(Listed(Sort(cs, ByName), cs))
  }

  // ------------------------------------------------------------ coverage

  /** Neither a duplicate nor a redundant prefix: advice never drops it for being covered. */
  predicate Kept(cs: seq<Observed>, x: Observed) {
    !Duplicate(cs, x) && !RedundantPrefix(cs, x)
  }

  function Longest(cs: seq<Observed>): (n: nat)
    ensures forall i :: 0 <= i < |cs| ==> |cs[i].keys| <= n
  {
    if cs == [] then 0
    else
      var rest := Longest(cs[1..]);
      assert forall i :: 0 < i < |cs| ==> cs[i] == cs[1..][i - 1];
      if rest < |cs[0].keys| then |cs[0].keys| else rest
  }

  /** Every candidate's keys are a prefix of the keys of a candidate that is kept. */
  lemma {:induction false} Covered(cs: seq<Observed>, x: Observed) returns (y: Observed)
    requires x in cs
    ensures y in cs && Kept(cs, y) && x.keys <= y.keys
    decreases Longest(cs) - |x.keys|
  {
    if i :| 0 <= i < |cs| && x.keys < cs[i].keys {
      y := Covered(cs, cs[i]);
    } else {
      y := FirstNamed(cs, x);
    }
  }

  /** The earliest name among the candidates with the same keys. */
  lemma FirstNamed(cs: seq<Observed>, x: Observed) returns (y: Observed)
    requires x in cs
    ensures y in cs && y.keys == x.keys && !Duplicate(cs, y)
  {
    var names := set c | c in cs && c.keys == x.keys :: c.name;
    assert x.name in names;
    var least := Least(names);
    y :| y in cs && y.keys == x.keys && y.name == least;
    NameOrder();
    forall i | 0 <= i < |cs|
      ensures !Earlier(cs[i], y)
    {
      assert cs[i].keys == y.keys ==> cs[i].name in names;
    }
  }

  /** For everything flagged as duplicate or redundant, an index that is flagged as neither serves
      the same key prefix. */
  lemma CleanupKeepsCoverage(xs: seq<Observed>, x: Observed) returns (y: Observed)
    requires x in Candidates(xs)
    requires DUPLICATE in ReasonsOf(Candidates(xs), x) || REDUNDANT_PREFIX in ReasonsOf(Candidates(xs), x)
    ensures y in Candidates(xs) && x.keys <= y.keys && y != x
    ensures DUPLICATE !in ReasonsOf(Candidates(xs), y) && REDUNDANT_PREFIX !in ReasonsOf(Candidates(xs), y)
  {
    y := Covered(Candidates(xs), x);
  }

  // ------------------------------------------------------------ input order

  lemma {:induction false} CandidatesPermuted(xs: seq<Observed>, x: Observed)
    ensures multiset(Candidates(xs))[x] == if x.name == "_id_" then 0 else multiset(xs)[x]
  {
    if xs != [] {
      CandidatesPermuted(xs[1..], x);
      assert xs == [xs[0]] + xs[1..];
    }
  }

  lemma {:induction false} SameCandidates(xs: seq<Observed>, ys: seq<Observed>)
    requires multiset(xs) == multiset(ys)
    ensures multiset(Candidates(xs)) == multiset(Candidates(ys))
  {
    hide Candidates;
    forall x
      ensures multiset(Candidates(xs))[x] == multiset(Candidates(ys))[x]
    {
      CandidatesPermuted(xs, x);
      CandidatesPermuted(ys, x);
    }
  }

  lemma SameReasons(cs: seq<Observed>, ds: seq<Observed>, x: Observed)
    requires multiset(cs) == multiset(ds)
    ensures ReasonsOf(cs, x) == ReasonsOf(ds, x)
  {
    hide Earlier;
    SameElements(cs, ds);
    assert forall i :: 0 <= i < |cs| ==> cs[i] in ds;
    assert forall i :: 0 <= i < |ds| ==> ds[i] in cs;
  }

  lemma {:induction false} SameListed(ordered: seq<Observed>, cs: seq<Observed>, ds: seq<Observed>)
    requires multiset(cs) == multiset(ds)
    ensures Listed(ordered, cs) == Listed(ordered, ds)
  {
    hide ReasonsOf;
    if ordered != [] {
      SameReasons(cs, ds, ordered[0]);
      SameListed(ordered[1..], cs, ds);
    }
  }

  lemma SameValid(xs: seq<Observed>, ys: seq<Observed>)
    requires multiset(xs) == multiset(ys) && Valid(xs)
    ensures Valid(ys)
  {
    SameElements(xs, ys);
    forall j | 0 <= j < |ys|
      ensures ys[j].name != "" && ys[j].keys != [] && ys[j].uses >= 0
    {
      assert ys[j] in xs;
    }
    forall i, j | 0 <= i < j < |ys|
      ensures ys[i].name != ys[j].name
    {
      Twice(ys, i, j);
      assert ys[i] in xs && ys[j] in xs;
      if ys[i].name == ys[j].name {
        OnceByName(xs, ys[i], ys[j]);
      }
    }
  }

  lemma Twice(xs: seq<Observed>, i: nat, j: nat)
    requires i < j < |xs|
    ensures xs[i] == xs[j] ==> multiset(xs)[xs[i]] >= 2
  {
    assert xs == xs[..j] + [xs[j]] + xs[j + 1..];
    assert xs[..j][i] == xs[i];
    assert xs[i] in multiset(xs[..j]);
  }

  lemma OnceByName(xs: seq<Observed>, x: Observed, y: Observed)
    requires Valid(xs) && x in xs && y in xs && x.name == y.name
    ensures x == y && multiset(xs)[x] == 1
  {
    var i :| 0 <= i < |xs| && xs[i] == x;
    assert xs == xs[..i] + [xs[i]] + xs[i + 1..];
    assert x !in xs[..i] && x !in xs[i + 1..];
    assert x !in multiset(xs[..i]) && x !in multiset(xs[i + 1..]);
  }

  /** The recommendations do not depend on the order the indexes were observed in. */
  lemma OrderIsIrrelevant(xs: seq<Observed>, ys: seq<Observed>)
    requires multiset(xs) == multiset(ys)
    ensures Recommended(xs) == Recommended(ys)
  {
    if Valid(xs) {
      SameValid(xs, ys);
      SameCandidates(xs, ys);
      var cs, ds := Candidates(xs), Candidates(ys);
      ByNameOrder(xs);
      SortIgnoresOrder(cs, ds, ByName);
      SameListed(Sort(cs, ByName), cs, ds);
    } else if Valid(ys) {
      SameValid(ys, xs);
    }
  }

  lemma {:induction false} ByNameOrder(xs: seq<Observed>)
    requires Valid(xs)
    ensures Preorder(ByName) && Separates(ByName, Candidates(xs))
  {
    NameOrder();
    hide Candidates;
    forall x, y | x in Candidates(xs) && y in Candidates(xs) && ByName(x, y) && ByName(y, x)
      ensures x == y
    {
      OnceByName(xs, x, y);
    }
  }

  // ------------------------------------------------------------ the advisor's loops

  function WithKeys(cs: seq<Observed>, keys: Keys): (r: seq<Observed>)
    ensures forall x :: x in r <==> x in cs && x.keys == keys
  {
    if cs == [] then []
    else WithKeys(cs[..|cs| - 1], keys) + (if cs[|cs| - 1].keys == keys then [cs[|cs| - 1]] else [])
  }

  lemma {:induction false} WithKeysNext(cs: seq<Observed>, i: nat, keys: Keys)
    requires i < |cs|
    ensures WithKeys(cs[..i + 1], keys) == WithKeys(cs[..i], keys) + (if cs[i].keys == keys then [cs[i]] else [])
  {
    assert cs[..i + 1][..i] == cs[..i];
  }

  /** The dictionary holds the group of every key list that occurs. */
  ghost predicate Grouped(groups: map<Keys, seq<Observed>>, cs: seq<Observed>) {
    && (forall k :: k in groups ==> groups[k] == WithKeys(cs, k))
    && (forall k :: k !in groups ==> WithKeys(cs, k) == [])
  }

  lemma GroupedNext(groups: map<Keys, seq<Observed>>, cs: seq<Observed>, i: nat)
    requires i < |cs| && Grouped(groups, cs[..i])
    ensures var before := if cs[i].keys in groups then groups[cs[i].keys] else [];
            Grouped(groups[cs[i].keys := before + [cs[i]]], cs[..i + 1])
  {
    hide WithKeys;
    var before := if cs[i].keys in groups then groups[cs[i].keys] else [];
    var after := groups[cs[i].keys := before + [cs[i]]];
    forall k
      ensures if k in after then after[k] == WithKeys(cs[..i + 1], k) else WithKeys(cs[..i + 1], k) == []
    {
      WithKeysNext(cs, i, k);
    }
  }

  method Group(cs: seq<Observed>) returns (groups: map<Keys, seq<Observed>>)
    ensures forall k :: k in groups ==> groups[k] == WithKeys(cs, k)
    ensures forall x :: x in cs ==> x.keys in groups
  {
    groups := map[];
    for i := 0 to |cs|
      invariant Grouped(groups, cs[..i])
    {
      hide Grouped;
      GroupedNext(groups, cs, i);
      var before := if cs[i].keys in groups then groups[cs[i].keys] else [];
      groups := groups[cs[i].keys := before + [cs[i]]];
    }
    hide WithKeys;
    assert cs[..|cs|] == cs;
    forall x | x in cs
      ensures x.keys in groups
    {
      assert x in WithKeys(cs, x.keys);
    }
  }

  ghost predicate DistinctNames(cs: seq<Observed>) {
    forall x, y :: x in cs && y in cs && x.name == y.name ==> x == y
  }

  /** No index is listed twice. */
  ghost predicate Once(cs: seq<Observed>) {
    forall i, j :: 0 <= i < j < |cs| ==> cs[i] != cs[j]
  }

  lemma {:induction false} WithKeysOnce(cs: seq<Observed>, keys: Keys, x: Observed)
    requires Once(cs)
    ensures multiset(WithKeys(cs, keys))[x] <= 1
  {
    if cs != [] {
      var init, last := cs[..|cs| - 1], cs[|cs| - 1];
      WithKeysOnce(init, keys, x);
      if x == last {
        assert x !in init;
        assert x !in WithKeys(init, keys);
        assert x !in multiset(WithKeys(init, keys));
      }
    }
  }

  lemma {:induction false} SortedOnce(cs: seq<Observed>, keys: Keys, i: nat)
    requires Once(cs)
    requires 1 <= i < |Sort(WithKeys(cs, keys), ByName)|
    ensures Sort(WithKeys(cs, keys), ByName)[0] != Sort(WithKeys(cs, keys), ByName)[i]
  {
    var sorted := Sort(WithKeys(cs, keys), ByName);
    SortPermutes(WithKeys(cs, keys), ByName);
    WithKeysOnce(cs, keys, sorted[0]);
    Twice(sorted, 0, i);
  }

  /** The sorted group has exactly the candidates with these keys, in name order. */
  lemma {:induction false} GroupSorted(cs: seq<Observed>, keys: Keys)
    ensures var sorted := Sort(WithKeys(cs, keys), ByName);
            Sorted(sorted, ByName) && forall x :: x in sorted <==> x in cs && x.keys == keys
  {
    NameOrder();
    hide WithKeys;
    SortPermutes(WithKeys(cs, keys), ByName);
    SortSorted(WithKeys(cs, keys), ByName);
    SameElements(Sort(WithKeys(cs, keys), ByName), WithKeys(cs, keys));
  }

  lemma {:induction false} FlaggedIsDuplicate(cs: seq<Observed>, keys: Keys, x: Observed, i: nat)
    requires DistinctNames(cs) && Once(cs) && x in cs
    requires 1 <= i < |Sort(WithKeys(cs, keys), ByName)| && Sort(WithKeys(cs, keys), ByName)[i].name == x.name
    ensures x.keys == keys && Duplicate(cs, x)
  {
    hide WithKeys, Sort, Once;
    var sorted := Sort(WithKeys(cs, keys), ByName);
    GroupSorted(cs, keys);
    assert sorted[i] in sorted && sorted[0] in sorted;
    SortedOnce(cs, keys, i);
    assert ByName(sorted[0], sorted[i]);
    var k :| 0 <= k < |cs| && cs[k] == sorted[0];
    assert Earlier(cs[k], x);
  }

  lemma DuplicateIsFlagged(cs: seq<Observed>, x: Observed) returns (i: nat)
    requires x in cs && Duplicate(cs, x)
    ensures var sorted := Sort(WithKeys(cs, x.keys), ByName); 1 <= i < |sorted| && sorted[i] == x
  {
    hide WithKeys, Sort, ByName;
    var sorted := Sort(WithKeys(cs, x.keys), ByName);
    GroupSorted(cs, x.keys);
    var k :| 0 <= k < |cs| && Earlier(cs[k], x);
    EarlierPrecedes(cs[k], x);
    i :| 0 <= i < |sorted| && sorted[i] == x;
    var j :| 0 <= j < |sorted| && sorted[j] == cs[k];
  }

  lemma EarlierPrecedes(y: Observed, x: Observed)
    requires Earlier(y, x)
    ensures !ByName(x, y) && y != x && y.keys == x.keys
  {
    NameOrder();
  }

  ghost predicate NamedAfterFirst(sorted: seq<Observed>, name: string) {
    exists i :: 1 <= i < |sorted| && sorted[i].name == name
  }

  /** In a group sorted by name everything but the first is a duplicate. */
  lemma {:induction false} AfterFirst(cs: seq<Observed>, keys: Keys, x: Observed)
    requires DistinctNames(cs) && x in cs && Once(cs)
    ensures NamedAfterFirst(Sort(WithKeys(cs, keys), ByName), x.name) <==> x.keys == keys && Duplicate(cs, x)
  {
    hide WithKeys, Sort, Duplicate, DistinctNames, Once;
    if i :| 1 <= i < |Sort(WithKeys(cs, keys), ByName)| && Sort(WithKeys(cs, keys), ByName)[i].name == x.name {
      FlaggedIsDuplicate(cs, keys, x, i);
    }
    if x.keys == keys && Duplicate(cs, x) {
      var i := DuplicateIsFlagged(cs, x);
    }
  }

  lemma {:induction false} CandidatesOnce(xs: seq<Observed>)
    requires Valid(xs)
    ensures DistinctNames(Candidates(xs)) && Once(Candidates(xs))
  {
    if xs != [] {
      assert forall i :: 0 <= i < |xs[1..]| ==> xs[1..][i] == xs[i + 1];
      CandidatesOnce(xs[1..]);
      forall x | x in Candidates(xs[1..])
        ensures x.name != xs[0].name
      {
        var i :| 0 <= i < |xs[1..]| && xs[1..][i] == x;
      }
    }
  }

  /** Flag every index of the sorted group but the first. */
  method FlagGroup(sorted: seq<Observed>, reasons: map<string, set<Reason>>) returns (r: map<string, set<Reason>>)
    requires forall x :: x in sorted ==> x.name in reasons
    ensures r.Keys == reasons.Keys
    ensures forall n :: n in r ==> r[n] == reasons[n] + (if NamedAfterFirst(sorted, n) then {DUPLICATE} else {})
  {
    r := reasons;
    if sorted == [] {
      return;
    }
    for k := 1 to |sorted|
      invariant r.Keys == reasons.Keys
      invariant forall n :: n in r ==>
                  r[n] == reasons[n] + (if NamedAfterFirst(sorted[..k], n) then {DUPLICATE} else {})
    {
      var name := sorted[k].name;
      assert sorted[k] in sorted;
      forall n
        ensures NamedAfterFirst(sorted[..k + 1], n) <==> NamedAfterFirst(sorted[..k], n) || n == name
      {
        assert sorted[..k + 1][k].name == name;
        if i :| 1 <= i < k && sorted[..k][i].name == n {
          assert sorted[..k + 1][i].name == n;
        }
        if NamedAfterFirst(sorted[..k + 1], n) && n != name {
          var i :| 1 <= i < |sorted[..k + 1]| && sorted[..k + 1][i].name == n;
          assert sorted[..k][i].name == n;
        }
      }
      r := r[name := r[name] + {DUPLICATE}];
    }
    assert sorted[..|sorted|] == sorted;
  }

  ghost predicate Records(reasons: map<string, set<Reason>>, cs: seq<Observed>, f: Observed -> set<Reason>) {
    forall x :: x in cs ==> x.name in reasons && reasons[x.name] == f(x)
  }

  method MarkUsage(cs: seq<Observed>) returns (reasons: map<string, set<Reason>>)
    requires DistinctNames(cs)
    ensures Records(reasons, cs, Usage)
  {
    reasons := map[];
    for i := 0 to |cs|
      invariant Records(reasons, cs[..i], Usage)
    {
      var x := cs[i];
      var found: set<Reason> := {};
      if x.uses == 0 {
        found := found + {UNUSED};
        if x.owned {
          found := found + {STALE_OPTIMIZER_OWNED};
        }
      }
      reasons := reasons[x.name := found];
    }
    assert cs[..|cs|] == cs;
  }

  function WithDuplicates(cs: seq<Observed>, done: set<Keys>): Observed -> set<Reason> {
    (x: Observed) => Usage(x) + (if x.keys in done && Duplicate(cs, x) then {DUPLICATE} else {})
  }

  method MarkGroup(cs: seq<Observed>, keys: Keys, ghost done: set<Keys>, before: map<string, set<Reason>>)
    returns (reasons: map<string, set<Reason>>)
    requires DistinctNames(cs) && Once(cs) && keys !in done && Records(before, cs, WithDuplicates(cs, done))
    ensures Records(reasons, cs, WithDuplicates(cs, done + {keys}))
  {
    hide Duplicate, Usage, WithKeys, Once, DistinctNames, Sort;
    var sorted := Sort(WithKeys(cs, keys), ByName);
    GroupSorted(cs, keys);
    reasons := FlagGroup(sorted, before);
    hide NamedAfterFirst;
    forall x | x in cs
      ensures x.name in reasons && reasons[x.name] == WithDuplicates(cs, done + {keys})(x)
    {
      AfterFirst(cs, keys, x);
      assert before[x.name] == WithDuplicates(cs, done)(x);
    }
  }

  method MarkDuplicates(cs: seq<Observed>, usage: map<string, set<Reason>>) returns (reasons: map<string, set<Reason>>)
    requires DistinctNames(cs) && Once(cs) && Records(usage, cs, Usage)
    ensures forall x :: x in cs ==>
              x.name in reasons && reasons[x.name] == Usage(x) + (if Duplicate(cs, x) then {DUPLICATE} else {})
  {
    hide Duplicate, Usage, WithKeys, Once, DistinctNames;
    reasons := usage;
    var groups := Group(cs);
    var left := groups.Keys;
    while left != {}
      invariant left <= groups.Keys && Records(reasons, cs, WithDuplicates(cs, groups.Keys - left))
      decreases |left|
    {
      var keys :| keys in left;
      assert groups.Keys - (left - {keys}) == (groups.Keys - left) + {keys};
      reasons := MarkGroup(cs, keys, groups.Keys - left, reasons);
      left := left - {keys};
    }
    forall x | x in cs
      ensures x.name in reasons && reasons[x.name] == Usage(x) + (if Duplicate(cs, x) then {DUPLICATE} else {})
    {
      assert reasons[x.name] == WithDuplicates(cs, groups.Keys - left)(x);
    }
  }

  method MarkPrefixes(cs: seq<Observed>, before: map<string, set<Reason>>) returns (reasons: map<string, set<Reason>>)
    requires DistinctNames(cs) && Once(cs)
    requires forall x :: x in cs ==>
               x.name in before && before[x.name] == Usage(x) + (if Duplicate(cs, x) then {DUPLICATE} else {})
    ensures forall x :: x in cs ==> x.name in reasons && reasons[x.name] == ReasonsOf(cs, x)
  {
    hide Duplicate, Usage, RedundantPrefix;
    reasons := before;
    for i := 0 to |cs|
      invariant reasons.Keys == before.Keys
      invariant forall j :: i <= j < |cs| ==> reasons[cs[j].name] == before[cs[j].name]
      invariant forall j :: 0 <= j < i ==> reasons[cs[j].name] == ReasonsOf(cs, cs[j])
    {
      var x := cs[i];
      assert x in cs;
      assert forall j :: 0 <= j < |cs| && j != i ==> cs[j] in cs && cs[j].name != x.name;
      if RedundantPrefix(cs, x) {
        reasons := reasons[x.name := reasons[x.name] + {REDUNDANT_PREFIX}];
      }
    }
  }

  lemma {:induction false} SortedMembers(cs: seq<Observed>)
    ensures forall i :: 0 <= i < |Sort(cs, ByName)| ==> Sort(cs, ByName)[i] in cs
  {
    SortPermutes(cs, ByName);
    SameElements(Sort(cs, ByName), cs);
  }

  lemma {:induction false} ListedNone(cs: seq<Observed>)
    ensures Listed([], cs) == []
  {
  }

  lemma {:induction false} ListedStep(ordered: seq<Observed>, i: nat, cs: seq<Observed>)
    requires i < |ordered|
    ensures var x := ordered[i];
            Listed(ordered[i..], cs)
            == (if ReasonsOf(cs, x) == {} then [] else [Recommendation(x.name, InOrder(ReasonsOf(cs, x)), x.owned)])
               + Listed(ordered[i + 1..], cs)
  {
    hide ReasonsOf;
    assert ordered[i..][1..] == ordered[i + 1..];
  }

  method List(cs: seq<Observed>, reasons: map<string, set<Reason>>) returns (out: seq<Recommendation>)
    requires forall x :: x in cs ==> x.name in reasons && reasons[x.name] == ReasonsOf(cs, x)
    ensures out == Listed(Sort(cs, ByName), cs)
  {
    hide ReasonsOf, Sort, Listed;
    var ordered := Sort(cs, ByName);
    SortedMembers(cs);
    assert ordered[0..] == ordered && ordered[|ordered|..] == [];
    ListedNone(cs);
    out := [];
    for i := 0 to |ordered|
      invariant out + Listed(ordered[i..], cs) == Listed(ordered, cs)
    {
      ListedStep(ordered, i, cs);
      var x := ordered[i];
      if reasons[x.name] != {} {
        out := out + [Recommendation(x.name, InOrder(reasons[x.name]), x.owned)];
      }
    }
  }

  method Recommend(xs: seq<Observed>) returns (r: Option<seq<Recommendation>>)
    ensures r == Recommended(xs)
  {
    if !Valid(xs) {
      return None;
    }
    CandidatesOnce(xs);
    hide Candidates, Valid, Duplicate, Usage, RedundantPrefix, Once, DistinctNames;
    var cs := Candidates(xs);
    var reasons := MarkUsage(cs);
    reasons := MarkDuplicates(cs, reasons);
    reasons := MarkPrefixes(cs, reasons);
    var out := List(cs, reasons);
    return Some(out);
  }
}
