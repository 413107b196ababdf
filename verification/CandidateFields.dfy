/** Which index a stored query shape leads to, in terms of its stored conditions. */
module CandidateFields {
  import opened Sorting
  import opened Catalog
  import opened IndexGeneration
  import opened CandidateDefinitions

  /** The condition is a document with one of the four range operators. */
  ghost predicate HasRange(v: Value) {
    v.Document? && exists e :: e in v.entries && (e.0 == "$gt" || e.0 == "$gte" || e.0 == "$lt" || e.0 == "$lte")
  }

  /** A field with a stored condition, which is a range or not. */
  ghost predicate Filters(filter: seq<(string, Value)>, field: string, range: bool) {
    !("$" <= field) && exists e :: e in filter && e.0 == field && HasRange(e.1) == range
  }

  /** A field with a stored sort direction. */
  ghost predicate SortsBy(sort: seq<(string, Value)>, field: string, direction: int) {
    (direction == 1 || direction == -1) && (field, Number(direction)) in sort
  }

  lemma RangeIff(v: Value)
    ensures IsRange(v) <==> HasRange(v)
  {
    if v.Document? {
      if e :| e in v.entries && (e.0 == "$gt" || e.0 == "$gte" || e.0 == "$lt" || e.0 == "$lte") {
        var i :| 0 <= i < |v.entries| && v.entries[i] == e;
        assert RangeOperator(v.entries[i].0);
      }
      if i :| 0 <= i < |v.entries| && RangeOperator(v.entries[i].0) {
        assert v.entries[i] in v.entries;
      }
    }
  }

  lemma OperatorIff(field: string)
    ensures Operator(field) <==> "$" <= field
  {
  }

  lemma {:induction false} FilterFields(filter: seq<(string, Value)>, range: bool, field: string)
    ensures field in Conditions(filter, range) <==> Filters(filter, field, range)
  {
    ConditionsAre(filter, range);
    OperatorIff(field);
    forall v
      ensures IsRange(v) <==> HasRange(v)
    {
      RangeIff(v);
    }
    hide Conditions, Operator, IsRange, HasRange;
  }

  /** The three groups of fields of a stored query. */
  ghost predicate Groups(query: seq<(string, Value)>, e: set<string>, m: set<string>, r: set<string>) {
    var filter, sort := FilterOf(query), EntriesOf(Get(query, "sort"));
    && (forall f :: f in e <==> Filters(filter, f, false))
    && (forall f :: f in m <==> SortsBy(sort, f, 1) || SortsBy(sort, f, -1))
    && (forall f :: f in r <==> Filters(filter, f, true))
  }

  lemma {:induction false} PartitionAtFirstDot(name: string)
    ensures Partition(name).None? <==> '.' !in name
    ensures Partition(name).Some? ==>
              '.' !in Partition(name).value.0 && name == Partition(name).value.0 + "." + Partition(name).value.1
  {
    if name != "" {
      assert name == [name[0]] + name[1..];
      PartitionAtFirstDot(name[1..]);
    }
  }

  /** What the generator is given for a row. */
  function ShapeOf(row: Row): Option<Shape> {
    var parts, found := Partition(row.namespace), FindFields(row.structure);
    if parts.None? || found.None? then None
    else Some(Shape(row.hash, parts.value.0, parts.value.1, found.value.equality, found.value.sort, found.value.range))
  }

  lemma ProposedIs(row: Row, existing: Existing)
    ensures Proposed(row, existing)
            == if ShapeOf(row).None? || row.namespace !in existing then [] else Generated(ShapeOf(row).value)
  {
    hide Generated, FindFields, Partition;
  }

  lemma ShapeFields(row: Row, e: set<string>, m: set<string>, r: set<string>)
    requires ShapeOf(row).Some? && QueryOf(row.structure).Some? && Groups(QueryOf(row.structure).value, e, m, r)
    ensures var s := ShapeOf(row).value;
            && Members(s.equality) == e && Fields(s.sort) == m && Members(s.range) == r
            && s.sort == Directions(EntriesOf(Get(QueryOf(row.structure).value, "sort")))
  {
    var query := QueryOf(row.structure).value;
    var filter, sort := FilterOf(query), EntriesOf(Get(query, "sort"));
    hide Partition, Conditions, Directions, Filters, SortsBy, FilterOf, EntriesOf, Get;
    forall f
      ensures f in e <==> f in Conditions(filter, false)
      ensures f in r <==> f in Conditions(filter, true)
      ensures f in m <==> f in Fields(Directions(sort))
    {
      FilterFields(filter, false, f);
      FilterFields(filter, true, f);
      SortedFields(sort, f);
    }
    assert e == Members(Conditions(filter, false)) && r == Members(Conditions(filter, true));
    MembersAscending(Members(Conditions(filter, false)));
    MembersAscending(Members(Conditions(filter, true)));
  }

  lemma {:induction false} MembersAscending(names: set<string>)
    ensures Members(Ascending(names)) == names
  {
  }

  lemma {:induction false} SortedFields(sort: seq<(string, Value)>, f: string)
    ensures f in Fields(Directions(sort)) <==> SortsBy(sort, f, 1) || SortsBy(sort, f, -1)
  {
    var keys := Directions(sort);
    DirectionsAre(sort);
    FieldsAre(keys);
    hide Directions, FieldList;
    if f in Fields(keys) {
      FieldHas(keys, f);
      var p :| p in keys && p.0 == f;
    }
    if SortsBy(sort, f, 1) {
      assert (f, 1) in keys;
    }
    if SortsBy(sort, f, -1) {
      assert (f, -1) in keys;
    }
  }

  // ------------------------------------------------------------ from conditions to keys

  /** A row proposes an index exactly when its namespace has a dot and was inspected, its structure is a
      query document, and its conditions and sort name one to five fields. */
  lemma ProposesIff(row: Row, existing: Existing, e: set<string>, m: set<string>, r: set<string>)
    requires QueryOf(row.structure).Some? ==> Groups(QueryOf(row.structure).value, e, m, r)
    ensures Proposed(row, existing) != [] <==>
            '.' in row.namespace && row.namespace in existing && QueryOf(row.structure).Some? && 1 <= |e + m + r| <= 5
  {
    hide Groups, Generated, Partition;
    ProposedIs(row, existing);
    PartitionAtFirstDot(row.namespace);
    if ShapeOf(row).Some? {
      ShapeFields(row, e, m, r);
      GeneratedIff(ShapeOf(row).value);
    }
  }

  lemma ProposalIsGenerated(row: Row, existing: Existing, c: Candidate)
    requires c in Proposed(row, existing)
    ensures ShapeOf(row).Some? && row.namespace in existing
    ensures var s := ShapeOf(row).value;
            c.keys == KeysOf(s) && c.hash == row.hash && row.namespace == c.database + "." + c.collection
            && '.' !in c.database
  {
    hide FindFields, KeysOf;
    ProposedIs(row, existing);
    PartitionAtFirstDot(row.namespace);
  }

  /** The proposed index is on the named collection, and its key fields are the equality fields, then the
      other sort fields, then the other range fields, each group in name order; only a sort field that
      has no equality condition can descend, and does exactly if it is stored with -1. */
  lemma {:induction false} ProposedKeys(row: Row, existing: Existing, c: Candidate, e: set<string>, m: set<string>,
                                        r: set<string>)
    requires c in Proposed(row, existing) && QueryOf(row.structure).Some?
    requires Groups(QueryOf(row.structure).value, e, m, r)
    ensures '.' !in c.database && row.namespace == c.database + "." + c.collection && c.hash == row.hash
    ensures FieldList(c.keys) == Ascending(e) + Ascending(m - e) + Ascending(r - e - m)
    ensures var sort := EntriesOf(Get(QueryOf(row.structure).value, "sort"));
            forall k :: k in c.keys ==> k.1 == if k.0 in m - e && SortsBy(sort, k.0, -1) then -1 else 1
  {
    hide Groups, KeysOf, Ascending, Proposed, QueryOf, ShapeOf, EntriesOf, Get, SortsBy, Fields, Members;
    ProposalIsGenerated(row, existing, c);
    ShapeFields(row, e, m, r);
    var s := ShapeOf(row).value;
    KeyFields(s);
    hide FieldList;
    var sort := EntriesOf(Get(QueryOf(row.structure).value, "sort"));
    forall k | k in c.keys
      ensures k.1 == if k.0 in m - e && SortsBy(sort, k.0, -1) then -1 else 1
    {
      DirectionOf(s, sort, e, m, k);
    }
  }

  lemma {:induction false} DirectionOf(s: Shape, sort: seq<(string, Value)>, e: set<string>, m: set<string>, k: Key)
    requires k in KeysOf(s) && s.sort == Directions(sort) && Members(s.equality) == e && Fields(s.sort) == m
    ensures k.1 == if k.0 in m - e && SortsBy(sort, k.0, -1) then -1 else 1
  {
    hide KeysOf, Directions;
    DirectionsAre(sort);
    KeyDirections(s, k);
    if SortsBy(sort, k.0, -1) {
      assert (k.0, -1) in s.sort;
    }
  }

  // ------------------------------------------------------------ which row is defined

  /** A definition is that of the first row, by shape id, that wants its candidate, with its evidence. */
  ghost predicate Defines(rows: seq<Row>, existing: Existing, evidence: map<string, seq<string>>, d: Definition) {
    exists r :: r in rows && r.id == d.shape && r.id in evidence && Wanted(r, existing) == Some(d.candidate)
                && d.evidence == Ascending(Members(evidence[r.id]))
                && forall q :: q in rows && Wanted(q, existing) == Some(d.candidate) ==> NameLe(r.id, q.id)
  }

  lemma {:induction false} DefineFirst(rows: seq<Row>, existing: Existing, evidence: map<string, seq<string>>,
                                       seen: set<Candidate>, d: Definition)
    requires Referenced(rows, evidence) && Sorted(rows, RowLe) && d in Define(rows, existing, evidence, seen)
    ensures d.candidate !in seen && Defines(rows, existing, evidence, d)
  {
    hide Wanted, Ascending, Members, NameLe;
    var first, rest := rows[0], rows[1..];
    DefineHead(rows, existing, evidence, seen);
    var c := Wanted(first, existing);
    hide Define;
    assert first in rows && forall q :: q in rows <==> q == first || q in rest;
    if c.Some? && c.value !in seen && d == Definition(first.id, c.value, Ascending(Members(evidence[first.id]))) {
      forall q | q in rows
        ensures NameLe(first.id, q.id)
      {
        FirstIsLeast(rows, q);
      }
    } else {
      assert c.Some? && c.value in seen ==> seen + {c.value} == seen;
      DefineFirst(rest, existing, evidence, if c.None? then seen else seen + {c.value}, d);
      var r :| r in rest && r.id == d.shape && r.id in evidence && Wanted(r, existing) == Some(d.candidate)
               && d.evidence == Ascending(Members(evidence[r.id]))
               && forall q :: q in rest && Wanted(q, existing) == Some(d.candidate) ==> NameLe(r.id, q.id);
      assert r in rows;
    }
  }

  lemma FirstIsLeast(rows: seq<Row>, q: Row)
    requires Sorted(rows, RowLe) && q in rows
    ensures NameLe(rows[0].id, q.id)
  {
    NameLeTotal(q.id, q.id);
    hide NameLe;
    var i :| 0 <= i < |rows| && rows[i] == q;
    if i > 0 {
      assert RowLe(rows[0], rows[i]);
    }
  }

  lemma DefinedByFirst(rows: seq<Row>, existing: Existing, evidence: map<string, seq<string>>, d: Definition)
    requires Referenced(rows, evidence) && d in Definitions(rows, existing, evidence)
    ensures Defines(rows, existing, evidence, d)
  {
    hide Define, Wanted, Ascending, Members, NameLe;
    SortedReferenced(rows, evidence);
    RowOrder();
    SortSorted(rows, RowLe);
    SortPermutes(rows, RowLe);
    var ordered := Sort(rows, RowLe);
    DefineFirst(ordered, existing, evidence, {}, d);
    hide Sort;
    var r :| r in ordered && r.id == d.shape && r.id in evidence && Wanted(r, existing) == Some(d.candidate)
             && d.evidence == Ascending(Members(evidence[r.id]))
             && forall q :: q in ordered && Wanted(q, existing) == Some(d.candidate) ==> NameLe(r.id, q.id);
    assert r in rows;
  }

  lemma RowOrder()
    ensures Preorder(RowLe)
  {
    NameOrder();
  }

  /** What a row wants is what it proposes, unless an index of its namespace has these keys. */
  lemma WantedIff(row: Row, existing: Existing, c: Candidate)
    ensures Wanted(row, existing) == Some(c) <==>
            row.namespace in existing && Proposed(row, existing) == [c] && c.keys !in existing[row.namespace]
  {
    hide KeysOf, FindFields, Partition;
  }

  // ------------------------------------------------------------ the stored document

  /** The query document may be stored alone or under "query", its filter under "filter" or "query". */
  lemma {:induction false} WrapperIsIrrelevant(row: Row, query: seq<(string, Value)>, existing: Existing)
    requires row.structure == Document(query) && Get(query, "query").None?
    ensures QueryOf(row.structure) == Some(query)
    ensures Proposed(row.(structure := Document([("query", Document(query))])), existing) == Proposed(row, existing)
  {
    hide Conditions, Directions, Generated, Partition;
  }

  lemma FilterNames(filter: seq<(string, Value)>, other: Value)
    ensures FilterOf([("filter", Document(filter)), ("query", other)]) == filter
    ensures FilterOf([("query", Document(filter))]) == filter
    ensures FilterOf([("filter", Other), ("query", other)]) == [] == FilterOf([])
  {
    var wrapped: seq<(string, Value)> := [("query", Document(filter))];
    assert wrapped[1..] == [] && Get(wrapped, "filter") == None && Get(wrapped, "query") == Some(Document(filter));
    var none: seq<(string, Value)> := [];
    assert Get(none, "filter") == None && Get(none, "query") == None;
  }

  /** A structure that is no document, or keeps something else under "query", proposes nothing. */
  lemma NoDocument(row: Row, existing: Existing)
    requires !row.structure.Document?
             || (Get(row.structure.entries, "query").Some? && !Get(row.structure.entries, "query").value.Document?)
    ensures Proposed(row, existing) == []
  {
    hide Partition;
  }
}
