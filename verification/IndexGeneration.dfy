/** Deterministic index generation: one canonical key list per query shape.  The candidate's
    fingerprint is represented by the facts it digests. */
module IndexGeneration {
  import opened Sorting
  import opened Catalog

  type Key = (string, int)

  datatype Shape = Shape(
    hash: string, database: string, collection: string,
    equality: seq<string>, sort: seq<Key>, range: seq<string>)

  datatype Candidate = Candidate(hash: string, database: string, collection: string, keys: Keys)

  /** The order of Python's `sorted` on (field, direction) pairs. */
  predicate PairLe(p: Key, q: Key) {
    if p.0 == q.0 then p.1 <= q.1 else NameLe(p.0, q.0)
  }

  function Members<T>(xs: seq<T>): set<T> {
    set x | x in xs
  }

  function Fields(keys: seq<Key>): set<string> {
    if keys == [] then {} else {keys[0].0} + Fields(keys[1..])
  }

  function FieldList(keys: seq<Key>): (r: seq<string>)
    ensures |r| == |keys| && forall i :: 0 <= i < |r| ==> r[i] == keys[i].0
  {
    seq(|keys|, i requires 0 <= i < |keys| => keys[i].0)
  }

  /** Ascending keys on these fields. */
  function Ones(names: seq<string>): (r: seq<Key>)
    ensures |r| == |names| && forall i :: 0 <= i < |r| ==> r[i] == (names[i], 1)
  {
    seq(|names|, i requires 0 <= i < |names| => (names[i], 1))
  }

  /** Each field at its first occurrence, unless it was seen before. */
  function Collected(group: seq<Key>, seen: set<string>): seq<Key> {
    if group == [] then []
    else if group[0].0 in seen then Collected(group[1..], seen)
    else [group[0]] + Collected(group[1..], seen + {group[0].0})
  }

  function EqualityGroup(s: Shape): seq<Key> { Ones(Ascending(Members(s.equality))) }

  function SortGroup(s: Shape): seq<Key> { Sort(s.sort, PairLe) }

  function RangeGroup(s: Shape): seq<Key> { Ones(Ascending(Members(s.range))) }

  function KeysOf(s: Shape): seq<Key> {
    Collected(EqualityGroup(s) + SortGroup(s) + RangeGroup(s), {})
  }

  function Generated(s: Shape): seq<Candidate> {
    var keys := KeysOf(s);
    if keys == [] || |keys| > 5 then [] else [Candidate(s.hash, s.database, s.collection, keys)]
  }

  // ------------------------------------------------------------ the order on pairs

  lemma PairOrder()
    ensures Preorder(PairLe)
    ensures forall p, q :: PairLe(p, q) && PairLe(q, p) ==> p == q
  {
    NameOrder();
  }

  lemma {:induction false} FieldsAre(keys: seq<Key>)
    ensures forall f :: f in Fields(keys) <==> f in FieldList(keys)
    ensures forall p :: p in keys ==> p.0 in Fields(keys)
  {
    if keys != [] {
      FieldsAre(keys[1..]);
      assert FieldList(keys) == [keys[0].0] + FieldList(keys[1..]);
    }
  }

  lemma {:induction false} FieldHas(keys: seq<Key>, f: string)
    requires f in Fields(keys)
    ensures exists p :: p in keys && p.0 == f
  {
    if keys[0].0 == f {
      assert keys[0] in keys;
    } else {
      FieldHas(keys[1..], f);
    }
  }

  // ------------------------------------------------------------ collecting

  lemma {:induction false} CollectedSplit(a: seq<Key>, b: seq<Key>, seen: set<string>)
    ensures Collected(a + b, seen) == Collected(a, seen) + Collected(b, seen + Fields(a))
  {
    if a == [] {
      assert a + b == b && seen + Fields(a) == seen;
    } else {
      assert (a + b)[1..] == a[1..] + b;
      var seen' := seen + {a[0].0};
      CollectedSplit(a[1..], b, seen');
      assert seen' + Fields(a[1..]) == seen + Fields(a);
      if a[0].0 in seen {
        assert seen' == seen;
      }
    }
  }

  /** Collecting keeps one pair per new field. */
  lemma {:induction false} CollectedIs(group: seq<Key>, seen: set<string>)
    ensures var r := Collected(group, seen);
            && (forall p :: p in r ==> p in group && p.0 !in seen)
            && (forall i, j :: 0 <= i < j < |r| ==> r[i].0 != r[j].0)
            && Fields(r) == Fields(group) - seen
  {
    if group != [] {
      var first := group[0];
      if first.0 in seen {
        CollectedIs(group[1..], seen);
      } else {
        var rest := Collected(group[1..], seen + {first.0});
        CollectedIs(group[1..], seen + {first.0});
        assert Collected(group, seen) == [first] + rest && ([first] + rest)[1..] == rest;
      }
    }
  }

  lemma {:induction false} CollectedSorted(group: seq<Key>, seen: set<string>)
    requires Sorted(group, PairLe)
    ensures Sorted(Collected(group, seen), PairLe)
  {
    if group != [] {
      FirstLeast(group);
      hide PairLe;
      TailSorted(group, PairLe);
      var seen' := if group[0].0 in seen then seen else seen + {group[0].0};
      var rest := Collected(group[1..], seen');
      CollectedSorted(group[1..], seen');
      CollectedIs(group[1..], seen');
      assert forall i :: 0 <= i < |rest| ==> rest[i] in group[1..] && rest[i] in group;
    }
  }

  /** From a sorted group the pair kept for a field is its least. */
  lemma {:induction false} CollectedLeast(group: seq<Key>, seen: set<string>)
    requires Sorted(group, PairLe)
    ensures forall p, q :: p in Collected(group, seen) && q in group && p.0 == q.0 ==> p.1 <= q.1
  {
    if group != [] {
      var first := group[0];
      FirstLeast(group);
      TailSorted(group, PairLe);
      hide Sorted;
      var seen' := if first.0 in seen then seen else seen + {first.0};
      CollectedLeast(group[1..], seen');
      CollectedIs(group[1..], seen');
      assert forall q :: q in group ==> q == first || q in group[1..];
    }
  }

  lemma FirstLeast(group: seq<Key>)
    requires group != [] && Sorted(group, PairLe)
    ensures forall q :: q in group ==> PairLe(group[0], q)
  {
    PairOrder();
  }

  /** Two sorted groups with the same pairs collect to the same keys. */
  lemma {:induction false} CollectedCanonical(g1: seq<Key>, g2: seq<Key>, seen: set<string>)
    requires Sorted(g1, PairLe) && Sorted(g2, PairLe)
    requires forall p :: p in g1 <==> p in g2
    ensures Collected(g1, seen) == Collected(g2, seen)
  {
    hide PairLe;
    PairOrder();
    CollectedSorted(g1, seen);
    CollectedSorted(g2, seen);
    KeptInBoth(g1, g2, seen);
    KeptInBoth(g2, g1, seen);
    var r1, r2 := Collected(g1, seen), Collected(g2, seen);
    CollectedIs(g1, seen);
    CollectedIs(g2, seen);
    DistinctMultiset(r1, Members(r1));
    DistinctMultiset(r2, Members(r1));
    SortedUnique(r1, r2, PairLe);
  }

  lemma {:induction false} KeptInBoth(g1: seq<Key>, g2: seq<Key>, seen: set<string>)
    requires Sorted(g1, PairLe) && Sorted(g2, PairLe)
    requires forall p :: p in g1 <==> p in g2
    ensures forall p :: p in Collected(g1, seen) ==> p in Collected(g2, seen)
  {
    hide PairLe;
    CollectedLeast(g1, seen);
    CollectedLeast(g2, seen);
    CollectedIs(g1, seen);
    CollectedIs(g2, seen);
    FieldsAre(g2);
    var r2 := Collected(g2, seen);
    forall p | p in Collected(g1, seen)
      ensures p in r2
    {
      assert p in g2 && p.0 in Fields(r2);
      FieldHas(r2, p.0);
      var q :| q in r2 && q.0 == p.0;
      assert p.1 <= q.1 && q.1 <= p.1;
      assert q == p;
    }
  }

  // ------------------------------------------------------------ the canonical form

  lemma SortGroupIs(s: Shape)
    ensures Sorted(SortGroup(s), PairLe)
    ensures forall p :: p in SortGroup(s) <==> p in s.sort
  {
    PairOrder();
    SortPermutes(s.sort, PairLe);
    SortSorted(s.sort, PairLe);
    forall p
      ensures p in SortGroup(s) <==> p in s.sort
    {
      assert p in SortGroup(s) <==> p in multiset(SortGroup(s));
      assert p in s.sort <==> p in multiset(s.sort);
    }
  }

  /** Reordering and repeating the fields within a group does not change the candidate. */
  lemma GenerationIsCanonical(s: Shape, t: Shape)
    requires s.hash == t.hash && s.database == t.database && s.collection == t.collection
    requires Members(s.equality) == Members(t.equality)
    requires Members(s.sort) == Members(t.sort)
    requires Members(s.range) == Members(t.range)
    ensures Generated(s) == Generated(t)
  {
    SortGroupIs(s);
    SortGroupIs(t);
    hide PairLe, SortGroup, Collected, KeysOf, Fields, Ones;
    forall p
      ensures p in SortGroup(s) <==> p in SortGroup(t)
    {
      assert p in s.sort <==> p in Members(s.sort);
      assert p in t.sort <==> p in Members(t.sort);
    }
    CollectedCanonical(SortGroup(s), SortGroup(t), {} + Fields(EqualityGroup(s)));
    SameFields(SortGroup(s), SortGroup(t));
    Grouped(s);
    Grouped(t);
  }

  lemma {:induction false} SameFields(g1: seq<Key>, g2: seq<Key>)
    requires forall p :: p in g1 <==> p in g2
    ensures Fields(g1) == Fields(g2)
  {
    FieldsAre(g1);
    FieldsAre(g2);
    forall f
      ensures f in Fields(g1) <==> f in Fields(g2)
    {
      if f in Fields(g1) {
        FieldHas(g1, f);
      }
      if f in Fields(g2) {
        FieldHas(g2, f);
      }
    }
  }

  /** The keys, group by group. */
  lemma Grouped(s: Shape)
    ensures var e, m, r := EqualityGroup(s), SortGroup(s), RangeGroup(s);
            KeysOf(s) == Collected(e, {}) + Collected(m, {} + Fields(e)) + Collected(r, {} + Fields(e) + Fields(m))
  {
    var e, m, r := EqualityGroup(s), SortGroup(s), RangeGroup(s);
    CollectedSplit(e + m, r, {});
    CollectedSplit(e, m, {});
    FieldsConcat(e, m);
    assert {} + Fields(e) + Fields(m) == {} + Fields(e + m);
  }

  lemma {:induction false} FieldsConcat(a: seq<Key>, b: seq<Key>)
    ensures Fields(a + b) == Fields(a) + Fields(b)
  {
    if a == [] {
      assert a + b == b;
    } else {
      assert (a + b)[1..] == a[1..] + b;
      FieldsConcat(a[1..], b);
    }
  }

  /** From a sorted group: the new fields in ascending order. */
  lemma {:induction false} CollectedFields(group: seq<Key>, seen: set<string>)
    requires Sorted(group, PairLe)
    ensures FieldList(Collected(group, seen)) == Ascending(Fields(group) - seen)
  {
    var r := Collected(group, seen);
    CollectedIs(group, seen);
    CollectedSorted(group, seen);
    FieldsAre(r);
    assert forall i, j :: 0 <= i < j < |r| ==> PairLe(r[i], r[j]);
    AscendingUnique(FieldList(r), Fields(group) - seen);
  }

  lemma {:induction false} OnesSorted(names: set<string>)
    ensures Sorted(Ones(Ascending(names)), PairLe)
    ensures Fields(Ones(Ascending(names))) == names
  {
    AscendingStrict(names);
    FieldsAre(Ones(Ascending(names)));
    assert FieldList(Ones(Ascending(names))) == Ascending(names);
  }

  lemma SortFields(s: Shape)
    ensures Fields(SortGroup(s)) == Fields(s.sort)
  {
    SortGroupIs(s);
    hide SortGroup;
    SameFields(SortGroup(s), s.sort);
  }

  /** The fields in full: equality ascending, then the new sort fields, then the new range fields. */
  lemma KeyFields(s: Shape)
    ensures var e, m, r := Members(s.equality), Fields(s.sort), Members(s.range);
            FieldList(KeysOf(s)) == Ascending(e) + Ascending(m - e) + Ascending(r - e - m)
  {
    var e, m, r := Members(s.equality), Fields(s.sort), Members(s.range);
    OnesSorted(e);
    OnesSorted(r);
    SortFields(s);
    SortGroupIs(s);
    Grouped(s);
    hide PairLe, Collected, SortGroup, Fields, Ones, Members, KeysOf, Ascending, FieldList;
    var k1, k2 := Collected(EqualityGroup(s), {}), Collected(SortGroup(s), {} + e);
    var k3 := Collected(RangeGroup(s), {} + e + m);
    CollectedFields(EqualityGroup(s), {});
    CollectedFields(SortGroup(s), {} + e);
    CollectedFields(RangeGroup(s), {} + e + m);
    assert e - {} == e && m - ({} + e) == m - e && r - ({} + e + m) == r - e - m;
    FieldListConcat(k1, k2, k3);
  }

  lemma FieldListConcat(a: seq<Key>, b: seq<Key>, c: seq<Key>)
    ensures FieldList(a + b + c) == FieldList(a) + FieldList(b) + FieldList(c)
  {
  }

  lemma {:induction false} OnesDirections(names: seq<string>, seen: set<string>)
    ensures forall p :: p in Collected(Ones(names), seen) ==> p.1 == 1
  {
    CollectedIs(Ones(names), seen);
  }

  /** The directions in full: a sort field that is not an equality field gets the least direction
      asked for, every other field is ascending. */
  lemma KeyDirections(s: Shape, p: Key)
    requires p in KeysOf(s)
    ensures var e, m := Members(s.equality), Fields(s.sort);
            if p.0 in m - e then p in s.sort && forall q :: q in s.sort && q.0 == p.0 ==> p.1 <= q.1 else p.1 == 1
  {
    var e, m, r := Members(s.equality), Fields(s.sort), Members(s.range);
    OnesSorted(e);
    OnesSorted(r);
    SortFields(s);
    SortGroupIs(s);
    Grouped(s);
    hide PairLe, Collected, SortGroup, Ones, Members, KeysOf, Fields;
    OnesDirections(Ascending(e), {});
    OnesDirections(Ascending(r), {} + e + m);
    CollectedIs(EqualityGroup(s), {});
    CollectedIs(SortGroup(s), {} + e);
    CollectedIs(RangeGroup(s), {} + e + m);
    CollectedLeast(SortGroup(s), {} + e);
    FieldsAre(EqualityGroup(s));
    FieldsAre(SortGroup(s));
  }

  /** Every mentioned field once, and a candidate exactly for one to five of them. */
  lemma GeneratedIff(s: Shape)
    ensures var mentioned := Members(s.equality) + Fields(s.sort) + Members(s.range);
            && |KeysOf(s)| == |mentioned|
            && Members(FieldList(KeysOf(s))) == mentioned
            && (Generated(s) != [] <==> 1 <= |mentioned| <= 5)
  {
    var e, m, r := Members(s.equality), Fields(s.sort), Members(s.range);
    KeyFields(s);
    Union(e, m, r);
    hide KeysOf, Fields, FieldList, Members;
    ThreeParts(e, m - e, r - e - m);
    hide Ascending;
  }

  lemma {:induction false} ThreeParts(a: set<string>, b: set<string>, c: set<string>)
    ensures |Ascending(a) + Ascending(b) + Ascending(c)| == |a| + |b| + |c|
    ensures Members(Ascending(a) + Ascending(b) + Ascending(c)) == a + b + c
  {
    hide Ascending;
  }

  lemma Union(e: set<string>, m: set<string>, r: set<string>)
    ensures |e + m + r| == |e| + |m - e| + |r - e - m|
    ensures e + m + r == e + (m - e) + (r - e - m)
  {
    assert e + m + r == e + (m - e) + (r - e - m);
    assert e !! (m - e) && (e + (m - e)) !! (r - e - m);
  }

  // ------------------------------------------------------------ the generator's loops

  method Collect(group: seq<Key>, seen: set<string>, keys: seq<Key>) returns (seen': set<string>, keys': seq<Key>)
    ensures keys' == keys + Collected(group, seen)
    ensures seen' == seen + Fields(group)
  {
    seen', keys' := seen, keys;
    for i := 0 to |group|
      invariant keys' + Collected(group[i..], seen') == keys + Collected(group, seen)
      invariant seen' + Fields(group[i..]) == seen + Fields(group)
    {
      assert group[i..][1..] == group[i + 1..];
      if group[i].0 !in seen' {
        seen' := seen' + {group[i].0};
        keys' := keys' + [group[i]];
      }
    }
  }

  method Generate(s: Shape) returns (r: seq<Candidate>)
    ensures r == Generated(s)
  {
    hide Collected, Fields, EqualityGroup, SortGroup, RangeGroup, KeysOf;
    Grouped(s);
    var seen, keys := Collect(EqualityGroup(s), {}, []);
    seen, keys := Collect(SortGroup(s), seen, keys);
    seen, keys := Collect(RangeGroup(s), seen, keys);
    assert keys == KeysOf(s);
    if keys == [] || |keys| > 5 {
      return [];
    }
    return [Candidate(s.hash, s.database, s.collection, keys)];
  }
}
