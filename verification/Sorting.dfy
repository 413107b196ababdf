/** Sorting by an order: `Sort` is the one implementation every other module uses for
    Python's `sorted`, and `Ascending` lists a finite set of names in name order. */
module Sorting {

  /** Reflexive (by totality), total and transitive; ties between distinct values are allowed. */
  ghost predicate Preorder<T(!new)>(le: (T, T) -> bool) {
    && (forall x, y :: le(x, y) || le(y, x))
    && (forall x, y, z :: le(x, y) && le(y, z) ==> le(x, z))
  }

  /** No two distinct elements of `xs` tie. */
  ghost predicate Separates<T(!new)>(le: (T, T) -> bool, xs: seq<T>) {
    forall x, y :: x in xs && y in xs && le(x, y) && le(y, x) ==> x == y
  }

  ghost predicate Sorted<T>(xs: seq<T>, le: (T, T) -> bool) {
    forall i, j :: 0 <= i < j < |xs| ==> le(xs[i], xs[j])
  }

  /** Inserts before the first element that is not below `x`, so equal keys keep their order. */
  function Insert<T>(x: T, xs: seq<T>, le: (T, T) -> bool): (r: seq<T>)
    ensures |r| == |xs| + 1
  {
    if xs == [] || le(x, xs[0]) then [x] + xs else [xs[0]] + Insert(x, xs[1..], le)
  }

  /** Stable sorting by insertion. */
  function Sort<T>(xs: seq<T>, le: (T, T) -> bool): (r: seq<T>)
    ensures |r| == |xs|
  {
    if xs == [] then [] else Insert(xs[0], Sort(xs[1..], le), le)
  }

  lemma {:induction false} InsertPermutes<T>(x: T, xs: seq<T>, le: (T, T) -> bool)
    ensures multiset(Insert(x, xs, le)) == multiset{x} + multiset(xs)
  {
    if xs == [] || le(x, xs[0]) {
    } else {
      assert xs == [xs[0]] + xs[1..];
      InsertPermutes(x, xs[1..], le);
    }
  }

  lemma {:induction false} SortPermutes<T>(xs: seq<T>, le: (T, T) -> bool)
    ensures multiset(Sort(xs, le)) == multiset(xs)
    ensures forall x :: x in Sort(xs, le) <==> x in xs
  {
    if xs == [] {
    } else {
      SortPermutes(xs[1..], le);
      InsertPermutes(xs[0], Sort(xs[1..], le), le);
      assert xs == [xs[0]] + xs[1..];
    }
    SameElements(Sort(xs, le), xs);
  }

  lemma SameElements<T>(xs: seq<T>, ys: seq<T>)
    requires multiset(xs) == multiset(ys)
    ensures forall x :: x in xs <==> x in ys
  {
    forall x
      ensures x in xs <==> x in ys
    {
      assert x in xs <==> x in multiset(xs);
      assert x in ys <==> x in multiset(ys);
    }
  }

  lemma {:induction false} InsertSorted<T(!new)>(x: T, xs: seq<T>, le: (T, T) -> bool)
    requires Preorder(le) && Sorted(xs, le)
    ensures Sorted(Insert(x, xs, le), le)
  {
    if xs == [] || le(x, xs[0]) {
    } else {
      InsertSorted(x, xs[1..], le);
      InsertPermutes(x, xs[1..], le);
      var rest := Insert(x, xs[1..], le);
      forall j | 0 <= j < |rest|
        ensures le(xs[0], rest[j])
      {
        assert rest[j] in multiset(rest);
        assert rest[j] == x || rest[j] in xs[1..];
      }
    }
  }

  lemma {:induction false} SortSorted<T(!new)>(xs: seq<T>, le: (T, T) -> bool)
    requires Preorder(le)
    ensures Sorted(Sort(xs, le), le)
  {
    if xs == [] {
    } else {
      SortSorted(xs[1..], le);
      InsertSorted(xs[0], Sort(xs[1..], le), le);
    }
  }

  /** Without ties there is only one sorted arrangement. */
  lemma {:induction false} SortedUnique<T(!new)>(xs: seq<T>, ys: seq<T>, le: (T, T) -> bool)
    requires Preorder(le) && Sorted(xs, le) && Sorted(ys, le)
    requires Separates(le, xs)
    requires multiset(xs) == multiset(ys)
    ensures xs == ys
  {
    if xs == [] {
      assert |multiset(ys)| == 0;
    } else {
      SameFirst(xs, ys, le);
      TailSorted(xs, le);
      TailSorted(ys, le);
      hide Preorder, Sorted, Separates;
      SameTail(xs, ys);
      SortedUnique(xs[1..], ys[1..], le);
      assert xs == [xs[0]] + xs[1..];
      assert ys == [ys[0]] + ys[1..];
    }
  }

  lemma SameTail<T>(xs: seq<T>, ys: seq<T>)
    requires xs != [] && ys != [] && xs[0] == ys[0] && multiset(xs) == multiset(ys)
    ensures multiset(xs[1..]) == multiset(ys[1..])
  {
    DropFirst(xs);
    DropFirst(ys);
  }

  lemma DropFirst<T>(xs: seq<T>)
    requires xs != []
    ensures multiset(xs[1..]) == multiset(xs) - multiset{xs[0]}
  {
    assert xs == [xs[0]] + xs[1..];
  }

  lemma TailSorted<T(!new)>(xs: seq<T>, le: (T, T) -> bool)
    requires xs != [] && Sorted(xs, le)
    ensures Sorted(xs[1..], le)
    ensures Separates(le, xs) ==> Separates(le, xs[1..])
  {
  }

  lemma SameFirst<T(!new)>(xs: seq<T>, ys: seq<T>, le: (T, T) -> bool)
    requires xs != [] && Preorder(le) && Sorted(xs, le) && Sorted(ys, le)
    requires Separates(le, xs)
    requires multiset(xs) == multiset(ys)
    ensures ys != [] && xs[0] == ys[0]
  {
    assert |multiset(xs)| == |xs| && |multiset(ys)| == |ys|;
    SameElements(xs, ys);
    assert xs[0] in ys && ys[0] in xs;
    assert le(xs[0], ys[0]) && le(ys[0], xs[0]);
  }

  /** Sorting forgets the order of its input. */
  lemma {:induction false} SortIgnoresOrder<T(!new)>(xs: seq<T>, ys: seq<T>, le: (T, T) -> bool)
    requires Preorder(le) && Separates(le, xs)
    requires multiset(xs) == multiset(ys)
    ensures Sort(xs, le) == Sort(ys, le)
  {
    SortPermutes(xs, le);
    SortPermutes(ys, le);
    SortSorted(xs, le);
    SortSorted(ys, le);
    SortedUnique(Sort(xs, le), Sort(ys, le), le);
  }

  // ---------------------------------------------------------------- names

  /** Lexicographic order by code point. */
  predicate NameLe(a: string, b: string) {
    a == [] || (b != [] && (a[0] < b[0] || (a[0] == b[0] && NameLe(a[1..], b[1..]))))
  }

  lemma {:induction false} NameLeTotal(a: string, b: string)
    ensures NameLe(a, b) || NameLe(b, a)
  {
    if a != [] && b != [] && a[0] == b[0] {
      NameLeTotal(a[1..], b[1..]);
    }
  }

  lemma {:induction false} NameLeAntisymmetric(a: string, b: string)
    requires NameLe(a, b) && NameLe(b, a)
    ensures a == b
  {
    if a != [] && b != [] {
      NameLeAntisymmetric(a[1..], b[1..]);
      assert a == [a[0]] + a[1..] && b == [b[0]] + b[1..];
    }
  }

  lemma {:induction false} NameLeTransitive(a: string, b: string, c: string)
    requires NameLe(a, b) && NameLe(b, c)
    ensures NameLe(a, c)
  {
    if a != [] && a[0] == b[0] && b[0] == c[0] {
      NameLeTransitive(a[1..], b[1..], c[1..]);
    }
  }

  lemma NameOrder()
    ensures Preorder(NameLe)
    ensures forall a, b :: NameLe(a, b) && NameLe(b, a) ==> a == b
  {
    forall a, b
      ensures NameLe(a, b) || NameLe(b, a)
    {
      NameLeTotal(a, b);
    }
    forall a, b, c | NameLe(a, b) && NameLe(b, c)
      ensures NameLe(a, c)
    {
      NameLeTransitive(a, b, c);
    }
    forall a, b | NameLe(a, b) && NameLe(b, a)
      ensures a == b
    {
      NameLeAntisymmetric(a, b);
    }
  }

  lemma LeastExists(s: set<string>)
    requires s != {}
    ensures exists x :: x in s && forall y :: y in s ==> NameLe(x, y)
    decreases |s|
  {
    NameOrder();
    var x :| x in s;
    if s == {x} {
      assert forall y :: y in s ==> NameLe(x, y);
    } else {
      LeastExists(s - {x});
      var z :| z in s - {x} && forall y :: y in s - {x} ==> NameLe(z, y);
      if NameLe(x, z) {
        assert forall y :: y in s ==> NameLe(x, y);
      } else {
        assert forall y :: y in s ==> NameLe(z, y);
      }
    }
  }

  /** The least name of a non-empty set. */
  function Least(s: set<string>): (x: string)
    requires s != {}
    ensures x in s && forall y :: y in s ==> NameLe(x, y)
  {
    LeastExists(s);
    NameOrder();
    var x :| x in s && forall y :: y in s ==> NameLe(x, y);
    x
  }

  /** The names of a finite set in ascending order, each once. */
  function Ascending(s: set<string>): (r: seq<string>)
    ensures |r| == |s|
    ensures forall x :: x in r <==> x in s
    decreases |s|
  {
    if s == {} then
      []
    else
      var x := Least(s);
      assert |s - {x}| == |s| - 1;
      [x] + Ascending(s - {x})
  }

  lemma {:induction false} AscendingStrict(s: set<string>)
    ensures forall i, j :: 0 <= i < j < |Ascending(s)| ==> Ascending(s)[i] != Ascending(s)[j]
    ensures Sorted(Ascending(s), NameLe)
    decreases |s|
  {
    if s != {} {
      var x := Least(s);
      var rest := Ascending(s - {x});
      AscendingStrict(s - {x});
      assert Ascending(s) == [x] + rest;
      forall j | 0 <= j < |rest|
        ensures rest[j] != x && NameLe(x, rest[j])
      {
        assert rest[j] in rest;
      }
    }
  }

  /** A sequence without repetition lists each element of its set once. */
  lemma {:induction false} DistinctMultiset<T>(xs: seq<T>, s: set<T>)
    requires forall i, j :: 0 <= i < j < |xs| ==> xs[i] != xs[j]
    requires forall x :: x in xs <==> x in s
    ensures multiset(xs) == multiset(s)
  {
    if xs == [] {
      assert s == {};
    } else {
      forall x
        ensures x in xs[1..] <==> x in s - {xs[0]}
      {
        assert x in xs <==> x == xs[0] || x in xs[1..];
        if x in xs[1..] {
          var k :| 0 <= k < |xs[1..]| && xs[1..][k] == x;
          assert xs[k + 1] == x;
        }
      }
      DistinctMultiset(xs[1..], s - {xs[0]});
      assert xs == [xs[0]] + xs[1..];
      assert s == {xs[0]} + (s - {xs[0]});
    }
  }

  /** A strictly sorted enumeration of a set is its `Ascending` listing. */
  lemma {:induction false} AscendingUnique(xs: seq<string>, s: set<string>)
    requires Sorted(xs, NameLe)
    requires forall i, j :: 0 <= i < j < |xs| ==> xs[i] != xs[j]
    requires forall x :: x in xs <==> x in s
    ensures xs == Ascending(s)
  {
    NameOrder();
    AscendingStrict(s);
    DistinctMultiset(xs, s);
    DistinctMultiset(Ascending(s), s);
    SortedUnique(xs, Ascending(s), NameLe);
  }
}
