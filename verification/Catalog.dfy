/** One collection of the target: the index dictionary the adapter keeps, the name-ordered
    listing callers observe, and the typed actions on it. */
module Catalog {
  import opened Sorting

  type Keys = seq<(string, int)>

  datatype Option<+T> = None | Some(value: T)

  datatype IndexSpec = IndexSpec(name: string, keys: Keys)

  /** A collection namespace: absent, or present with its indexes by name. */
  datatype Namespace = Absent | Present(indexes: map<string, Keys>)

  /** What one observation of the namespace returns. */
  datatype State = State(namespaceExists: bool, indexes: seq<IndexSpec>)

  function Created(t: Namespace, index: IndexSpec): Namespace {
    match t
    case Absent => Present(map[index.name := index.keys])
    case Present(m) => Present(m[index.name := index.keys])
  }

  function Dropped(t: Namespace, name: string): Namespace {
    match t
    case Absent => Absent
    case Present(m) => Present(m - {name})
  }

  function Specs(names: seq<string>, m: map<string, Keys>): (r: seq<IndexSpec>)
    requires forall n :: n in names ==> n in m
    ensures |r| == |names|
    ensures forall i :: 0 <= i < |r| ==> r[i] == IndexSpec(names[i], m[names[i]])
  {
    if names == [] then [] else [IndexSpec(names[0], m[names[0]])] + Specs(names[1..], m)
  }

  function Listing(m: map<string, Keys>): (r: seq<IndexSpec>)
    ensures forall x :: x in r <==> x.name in m && x.keys == m[x.name]
  {
    var names := Ascending(m.Keys);
    var r := Specs(names, m);
    assert forall n :: n in m ==> n in names;
    assert forall k :: 0 <= k < |names| ==> IndexSpec(names[k], m[names[k]]) == r[k];
    r
  }

  function View(t: Namespace): State {
    match t
    case Absent => State(false, [])
    case Present(m) => State(true, Listing(m))
  }

  function CountExact(xs: seq<IndexSpec>, index: IndexSpec): nat {
    if xs == [] then 0 else (if xs[0] == index then 1 else 0) + CountExact(xs[1..], index)
  }

  /** Exactly one listed index has this name and these keys. */
  predicate HasExactIndex(s: State, index: IndexSpec) {
    CountExact(s.indexes, index) == 1
  }

  function Named(xs: seq<IndexSpec>, name: string): seq<IndexSpec> {
    if xs == [] then [] else (if xs[0].name == name then [xs[0]] else []) + Named(xs[1..], name)
  }

  function Without(xs: seq<IndexSpec>, name: string): seq<IndexSpec> {
    if xs == [] then [] else (if xs[0].name == name then [] else [xs[0]]) + Without(xs[1..], name)
  }

  function WithoutOwnedIndex(s: State, name: string): State {
    s.(indexes := Without(s.indexes, name))
  }

  /** No two listed indexes share a name. */
  ghost predicate DistinctNames(xs: seq<IndexSpec>) {
    forall i, j :: 0 <= i < j < |xs| ==> xs[i].name != xs[j].name
  }

  lemma ListingOrdered(m: map<string, Keys>)
    ensures DistinctNames(Listing(m))
    ensures forall i, j :: 0 <= i < j < |Listing(m)| ==> NameLe(Listing(m)[i].name, Listing(m)[j].name)
  {
    AscendingStrict(m.Keys);
  }

  lemma ListingInjective(m: map<string, Keys>, n: map<string, Keys>)
    requires Listing(m) == Listing(n)
    ensures m == n
  {
    hide Listing;
    forall x
      ensures x in m <==> x in n
      ensures x in m ==> m[x] == n[x]
    {
      if x in m {
        assert IndexSpec(x, m[x]) in Listing(n);
      }
      if x in n {
        assert IndexSpec(x, n[x]) in Listing(m);
      }
    }
  }

  /** An observation determines the namespace. */
  lemma ViewInjective(t: Namespace, u: Namespace)
    ensures View(t) == View(u) <==> t == u
  {
    if t.Present? && u.Present? && View(t) == View(u) {
      ListingInjective(t.indexes, u.indexes);
    }
  }

  lemma {:induction false} CountExactDistinct(xs: seq<IndexSpec>, index: IndexSpec)
    requires DistinctNames(xs)
    ensures CountExact(xs, index) == if index in xs then 1 else 0
  {
    if xs != [] {
      CountExactDistinct(xs[1..], index);
      if xs[0] == index {
        assert index !in xs[1..];
      }
    }
  }

  /** The listed-index test is the dictionary lookup. */
  lemma HasExactView(t: Namespace, index: IndexSpec)
    ensures HasExactIndex(View(t), index)
            <==> t.Present? && index.name in t.indexes && t.indexes[index.name] == index.keys
  {
    if t.Present? {
      ListingOrdered(t.indexes);
      CountExactDistinct(Listing(t.indexes), index);
    }
  }

  lemma {:induction false} NamedDistinct(xs: seq<IndexSpec>, index: IndexSpec)
    requires DistinctNames(xs)
    ensures index in xs ==> Named(xs, index.name) == [index]
    ensures (forall x :: x in xs ==> x.name != index.name) ==> Named(xs, index.name) == []
  {
    if xs != [] {
      NamedDistinct(xs[1..], index);
      if xs[0] == index {
        forall x | x in xs[1..]
          ensures x.name != index.name
        {
        }
      }
    }
  }

  /** The listed indexes with one name: the dictionary entry or nothing. */
  lemma {:induction false} NamedView(m: map<string, Keys>, name: string)
    ensures Named(Listing(m), name) == if name in m then [IndexSpec(name, m[name])] else []
  {
    ListingOrdered(m);
    NamedDistinct(Listing(m), IndexSpec(name, if name in m then m[name] else []));
  }

  lemma {:induction false} WithoutKeepsOrder(xs: seq<IndexSpec>, name: string)
    requires DistinctNames(xs)
    requires forall i, j :: 0 <= i < j < |xs| ==> NameLe(xs[i].name, xs[j].name)
    ensures var r := Without(xs, name);
            && DistinctNames(r)
            && (forall i, j :: 0 <= i < j < |r| ==> NameLe(r[i].name, r[j].name))
            && (forall x :: x in r <==> x in xs && x.name != name)
  {
    if xs != [] {
      WithoutKeepsOrder(xs[1..], name);
      var rest := Without(xs[1..], name);
      assert Without(xs, name) == (if xs[0].name == name then [] else [xs[0]]) + rest;
      assert forall k :: 0 <= k < |rest| ==> rest[k] in xs[1..];
    }
  }

  function Names(xs: seq<IndexSpec>): (r: seq<string>)
    ensures |r| == |xs|
    ensures forall i :: 0 <= i < |xs| ==> r[i] == xs[i].name
  {
    seq(|xs|, i requires 0 <= i < |xs| => xs[i].name)
  }

  lemma NamesOf(xs: seq<IndexSpec>, x: string)
    ensures x in Names(xs) <==> exists i :: i in xs && i.name == x
  {
    if x in Names(xs) {
      var k :| 0 <= k < |xs| && Names(xs)[k] == x;
      assert xs[k] in xs;
    }
    if i :| i in xs && i.name == x {
      var k :| 0 <= k < |xs| && xs[k] == i;
      assert Names(xs)[k] == x;
    }
  }

  /** A name-ordered arrangement of a dictionary's entries is its listing. */
  lemma ListingUnique(xs: seq<IndexSpec>, m: map<string, Keys>)
    requires DistinctNames(xs)
    requires forall i, j :: 0 <= i < j < |xs| ==> NameLe(xs[i].name, xs[j].name)
    requires forall x :: x in xs <==> x.name in m && x.keys == m[x.name]
    ensures xs == Listing(m)
  {
    forall x
      ensures x in Names(xs) <==> x in m.Keys
    {
      NamesOf(xs, x);
      if x in m {
        assert IndexSpec(x, m[x]) in xs;
      }
    }
    AscendingUnique(Names(xs), m.Keys);
    forall k | 0 <= k < |xs|
      ensures xs[k] == Listing(m)[k]
    {
      assert xs[k] in xs && Names(xs)[k] == xs[k].name;
    }
  }

  /** Filtering the observed listing is dropping the dictionary entry. */
  lemma WithoutView(t: Namespace, name: string)
    ensures WithoutOwnedIndex(View(t), name) == View(Dropped(t, name))
  {
    if t.Present? {
      ListingOrdered(t.indexes);
      WithoutKeepsOrder(Listing(t.indexes), name);
      ListingUnique(Without(Listing(t.indexes), name), t.indexes - {name});
    }
  }

  /** Dropping undoes creating exactly when the namespace was there and the name was not. */
  lemma DropUndoesCreate(t: Namespace, index: IndexSpec)
    ensures Dropped(Created(t, index), index.name) == t
            <==> t.Present? && index.name !in t.indexes
  {
    if t.Present? && index.name !in t.indexes {
      assert t.indexes[index.name := index.keys] - {index.name} == t.indexes;
    } else if t.Present? {
      assert index.name !in Dropped(Created(t, index), index.name).indexes;
    }
  }
}
