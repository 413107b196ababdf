/** Candidate definitions of a run: the structural fields of each stored query shape, the index
    generated for it, and what is kept of them. */
module CandidateDefinitions {
  import opened Sorting
  import opened Catalog
  import opened IndexGeneration

  /** A stored JSON value; a document keeps its entries in stored order. */
  datatype Value = Document(entries: seq<(string, Value)>) | Number(number: int) | Other

  datatype Row = Row(id: string, namespace: string, hash: string, structure: Value)

  datatype Found = Found(equality: seq<string>, sort: seq<Key>, range: seq<string>)

  datatype Definition = Definition(shape: string, candidate: Candidate, evidence: seq<string>)

  type Existing = map<string, set<Keys>>

  // ------------------------------------------------------------ _find_fields

  function Get(entries: seq<(string, Value)>, key: string): Option<Value> {
    if entries == [] then None else if entries[0].0 == key then Some(entries[0].1) else Get(entries[1..], key)
  }

  predicate Operator(field: string) { field != "" && field[0] == '$' }

  predicate RangeOperator(field: string) {
    field == "$gt" || field == "$gte" || field == "$lt" || field == "$lte"
  }

  predicate IsRange(v: Value) {
    v.Document? && exists i :: 0 <= i < |v.entries| && RangeOperator(v.entries[i].0)
  }

  /** The named fields with an equality (or a range) condition, in stored order. */
  function Conditions(entries: seq<(string, Value)>, range: bool): seq<string> {
    if entries == [] then []
    else
      (if !Operator(entries[0].0) && IsRange(entries[0].1) == range then [entries[0].0] else [])
      + Conditions(entries[1..], range)
  }

  function Directions(entries: seq<(string, Value)>): seq<Key> {
    if entries == [] then []
    else
      var (field, value) := entries[0];
      (if value == Number(1) || value == Number(-1) then [(field, value.number)] else []) + Directions(entries[1..])
  }

  function EntriesOf(v: Option<Value>): seq<(string, Value)> {
    if v.Some? && v.value.Document? then v.value.entries else []
  }

  /** The query document: the one under "query", or the stored document itself. */
  function QueryOf(structure: Value): Option<seq<(string, Value)>> {
    if !structure.Document? then None
    else
      var inner := Get(structure.entries, "query");
      var query := if inner.Some? then inner.value else structure;
      if query.Document? then Some(query.entries) else None
  }

  /** The entries of its filter: of "filter", or else of "query". */
  function FilterOf(query: seq<(string, Value)>): seq<(string, Value)> {
    var filter := Get(query, "filter");
    EntriesOf(if filter.Some? then filter else Get(query, "query"))
  }

  function FindFields(structure: Value): Option<Found> {
    var query := QueryOf(structure);
    if query.None? then None
    else
      var conditions := FilterOf(query.value);
      Some(Found(
        Ascending(Members(Conditions(conditions, false))), Directions(EntriesOf(Get(query.value, "sort"))),
        Ascending(Members(Conditions(conditions, true)))))
  }

  // ------------------------------------------------------------ _definitions

  /** `partition(".")`: before and after the first dot. */
  function Partition(name: string): Option<(string, string)> {
    if name == "" then None
    else if name[0] == '.' then Some(("", name[1..]))
    else
      var rest := Partition(name[1..]);
      if rest.None? then None else Some(([name[0]] + rest.value.0, rest.value.1))
  }

  predicate RowLe(a: Row, b: Row) { NameLe(a.id, b.id) }

  /** What the generator proposes for a row whose namespace was inspected. */
  function Proposed(row: Row, existing: Existing): seq<Candidate> {
    var parts := Partition(row.namespace);
    if parts.None? || row.namespace !in existing then []
    else
      var found := FindFields(row.structure);
      if found.None? then []
      else
        var f := found.value;
        Generated(Shape(row.hash, parts.value.0, parts.value.1, f.equality, f.sort, f.range))
  }

  /** What is kept of it: a candidate whose keys no index of the namespace has. */
  function Wanted(row: Row, existing: Existing): Option<Candidate> {
    var proposed := Proposed(row, existing);
    if proposed != [] && proposed[0].keys !in existing[row.namespace] then Some(proposed[0]) else None
  }

  ghost predicate Referenced(rows: seq<Row>, evidence: map<string, seq<string>>) {
    forall r :: r in rows ==> r.id in evidence
  }

  function Define(rows: seq<Row>, existing: Existing, evidence: map<string, seq<string>>,
                  seen: set<Candidate>): seq<Definition>
    requires Referenced(rows, evidence)
  {
    if rows == [] then []
    else
      assert rows[0] in rows && forall r :: r in rows[1..] ==> r in rows;
      var c := Wanted(rows[0], existing);
      if c.None? || c.value in seen then Define(rows[1..], existing, evidence, seen)
      else
        [Definition(rows[0].id, c.value, Ascending(Members(evidence[rows[0].id])))]
        + Define(rows[1..], existing, evidence, seen + {c.value})
  }

  lemma {:induction false} SortedReferenced(rows: seq<Row>, evidence: map<string, seq<string>>)
    requires Referenced(rows, evidence)
    ensures Referenced(Sort(rows, RowLe), evidence)
  {
    SortPermutes(rows, RowLe);
    SameElements(Sort(rows, RowLe), rows);
  }

  function Definitions(rows: seq<Row>, existing: Existing, evidence: map<string, seq<string>>): seq<Definition>
    requires Referenced(rows, evidence)
  {
    SortedReferenced(rows, evidence);
    Define(Sort(rows, RowLe), existing, evidence, {})
  }

  /** The inspection of one row. */
  method Inspect(row: Row, existing: Existing) returns (r: Option<Candidate>)
    ensures r == Wanted(row, existing)
  {
    hide FindFields, Generated, Partition;
    var parts := Partition(row.namespace);
    if parts.None? || row.namespace !in existing {
      return None;
    }
    var found := FindFields(row.structure);
    if found.None? {
      return None;
    }
    var f := found.value;
    var generated := Generate(Shape(row.hash, parts.value.0, parts.value.1, f.equality, f.sort, f.range));
    if generated == [] || generated[0].keys in existing[row.namespace] {
      return None;
    }
    return Some(generated[0]);
  }

  /** The definition the first row adds, if it is the first to want its candidate. */
  lemma {:induction false} DefineHead(rows: seq<Row>, existing: Existing, evidence: map<string, seq<string>>,
                                      seen: set<Candidate>)
    requires rows != [] && Referenced(rows, evidence)
    ensures rows[0].id in evidence && Referenced(rows[1..], evidence)
    ensures var c := Wanted(rows[0], existing);
            Define(rows, existing, evidence, seen)
            == if c.None? || c.value in seen then Define(rows[1..], existing, evidence, seen)
               else [Definition(rows[0].id, c.value, Ascending(Members(evidence[rows[0].id])))]
                    + Define(rows[1..], existing, evidence, seen + {c.value})
  {
    assert rows[0] in rows && forall r :: r in rows[1..] ==> r in rows;
  }

  /** The loop of `_definitions`. */
  method BuildDefinitions(rows: seq<Row>, existing: Existing, evidence: map<string, seq<string>>)
    returns (definitions: seq<Definition>)
    requires Referenced(rows, evidence)
    ensures definitions == Definitions(rows, existing, evidence)
  {
    hide Ascending, Members, Wanted, Define, Referenced, Sort;
    SortedReferenced(rows, evidence);
    var ordered := Sort(rows, RowLe);
    definitions := [];
    var seen: set<Candidate> := {};
    for i := 0 to |ordered|
      invariant Referenced(ordered[i..], evidence)
      invariant definitions + Define(ordered[i..], existing, evidence, seen) == Define(ordered, existing, evidence, {})
    {
      var row := ordered[i];
      assert ordered[i..][0] == row && ordered[i..][1..] == ordered[i + 1..];
      DefineHead(ordered[i..], existing, evidence, seen);
      var candidate := Inspect(row, existing);
      if candidate.Some? && candidate.value !in seen {
        seen := seen + {candidate.value};
        definitions := definitions + [Definition(row.id, candidate.value, Ascending(Members(evidence[row.id])))];
      }
    }
    DefineNone(existing, evidence, seen);
  }

  lemma {:induction false} DefineNone(existing: Existing, evidence: map<string, seq<string>>, seen: set<Candidate>)
    ensures Referenced([], evidence) && Define([], existing, evidence, seen) == []
  {
  }

  // ------------------------------------------------------------ what is kept

  ghost predicate DistinctIds(rows: seq<Row>) {
    forall r, q :: r in rows && q in rows && r.id == q.id ==> r == q
  }

  /** With distinct shape ids the definitions do not depend on the order the rows came in. */
  lemma OrderIsIrrelevant(rows: seq<Row>, others: seq<Row>, existing: Existing, evidence: map<string, seq<string>>)
    requires Referenced(rows, evidence) && Referenced(others, evidence)
    requires DistinctIds(rows) && multiset(rows) == multiset(others)
    ensures Definitions(rows, existing, evidence) == Definitions(others, existing, evidence)
  {
    hide Define;
    NameOrder();
    assert Separates(RowLe, rows);
    assert Preorder(RowLe);
    SortIgnoresOrder(rows, others, RowLe);
  }

  ghost predicate DistinctCandidates(defs: seq<Definition>) {
    forall i, j :: 0 <= i < j < |defs| ==> defs[i].candidate != defs[j].candidate
  }

  ghost predicate Holds(defs: seq<Definition>, c: Candidate) {
    exists d :: d in defs && d.candidate == c
  }

  /** Some row proposes the candidate, and no index of its namespace has its keys. */
  ghost predicate Wants(rows: seq<Row>, existing: Existing, c: Candidate) {
    exists r :: r in rows && Wanted(r, existing) == Some(c)
  }

  lemma SameWants(rows: seq<Row>, others: seq<Row>, existing: Existing)
    requires multiset(rows) == multiset(others)
    ensures forall c :: Wants(rows, existing, c) <==> Wants(others, existing, c)
  {
    hide Wanted;
    forall r
      ensures r in rows <==> r in others
    {
      assert r in rows <==> r in multiset(rows);
      assert r in others <==> r in multiset(others);
    }
  }

  lemma {:induction false} DefineIs(rows: seq<Row>, existing: Existing, evidence: map<string, seq<string>>,
                                    seen: set<Candidate>)
    requires Referenced(rows, evidence)
    ensures var defs := Define(rows, existing, evidence, seen);
            && DistinctCandidates(defs)
            && (forall c :: Holds(defs, c) <==> c !in seen && Wants(rows, existing, c))
  {
    hide Wanted, Ascending, Members;
    if rows != [] {
      var c := Wanted(rows[0], existing);
      assert forall r :: r in rows <==> r == rows[0] || r in rows[1..];
      if c.None? || c.value in seen {
        DefineIs(rows[1..], existing, evidence, seen);
      } else {
        DefineIs(rows[1..], existing, evidence, seen + {c.value});
        var rest := Define(rows[1..], existing, evidence, seen + {c.value});
        var first := Definition(rows[0].id, c.value, Ascending(Members(evidence[rows[0].id])));
        var defs := [first] + rest;
        assert Define(rows, existing, evidence, seen) == defs;
        HoldsCons(first, rest);
        forall j | 0 <= j < |rest|
          ensures rest[j].candidate != c.value
        {
          assert Holds(rest, rest[j].candidate);
        }
      }
    }
  }

  lemma HoldsCons(first: Definition, rest: seq<Definition>)
    ensures forall c :: Holds([first] + rest, c) <==> c == first.candidate || Holds(rest, c)
  {
    forall c
      ensures Holds([first] + rest, c) <==> c == first.candidate || Holds(rest, c)
    {
      assert first in [first] + rest;
      if d :| d in rest && d.candidate == c {
        assert d in [first] + rest;
      }
    }
  }

  /** No fingerprint twice; a candidate is defined exactly when some row wants it, and none of the
      definitions repeats the keys of an index its collection already has. */
  lemma DefinitionsAre(rows: seq<Row>, existing: Existing, evidence: map<string, seq<string>>)
    requires Referenced(rows, evidence)
    ensures var defs := Definitions(rows, existing, evidence);
            && DistinctCandidates(defs)
            && (forall c :: Holds(defs, c) <==> Wants(rows, existing, c))
  {
    hide Wants, Define;
    SortedReferenced(rows, evidence);
    DefineIs(Sort(rows, RowLe), existing, evidence, {});
    SortPermutes(rows, RowLe);
    SameWants(Sort(rows, RowLe), rows, existing);
  }

  lemma {:induction false} PartitionJoins(name: string)
    ensures Partition(name).Some? ==> name == Partition(name).value.0 + "." + Partition(name).value.1
  {
    if name != "" && name[0] != '.' {
      PartitionJoins(name[1..]);
      assert name == [name[0]] + name[1..];
    }
  }

  /** Every definition creates an index its collection does not have. */
  lemma NothingExists(rows: seq<Row>, existing: Existing, evidence: map<string, seq<string>>, d: Definition)
    requires Referenced(rows, evidence) && d in Definitions(rows, existing, evidence)
    ensures var namespace := d.candidate.database + "." + d.candidate.collection;
            namespace in existing && d.candidate.keys !in existing[namespace] && 1 <= |d.candidate.keys| <= 5
  {
    hide Define;
    DefinitionsAre(rows, existing, evidence);
    assert Holds(Definitions(rows, existing, evidence), d.candidate);
    var r :| r in rows && Wanted(r, existing) == Some(d.candidate);
    hide KeysOf;
    PartitionJoins(r.namespace);
  }

  // ------------------------------------------------------------ stored order

  lemma {:induction false} ConditionsAre(entries: seq<(string, Value)>, range: bool)
    ensures forall f :: f in Conditions(entries, range)
                        <==> exists e :: e in entries && e.0 == f && !Operator(f) && IsRange(e.1) == range
  {
    hide IsRange, Operator;
    if entries != [] {
      ConditionsAre(entries[1..], range);
      assert forall e :: e in entries <==> e == entries[0] || e in entries[1..];
    }
  }

  lemma {:induction false} DirectionsAre(entries: seq<(string, Value)>)
    ensures forall k :: k in Directions(entries) <==> (k.1 == 1 || k.1 == -1) && (k.0, Number(k.1)) in entries
  {
    if entries != [] {
      DirectionsAre(entries[1..]);
      assert forall e :: e in entries <==> e == entries[0] || e in entries[1..];
    }
  }

  ghost predicate DistinctKeys(entries: seq<(string, Value)>) {
    forall i, j :: 0 <= i < j < |entries| ==> entries[i].0 != entries[j].0
  }

  /** The same value up to the order of entries, at every level. */
  ghost predicate Alike(v: Value, w: Value) {
    match v
    case Document(es) =>
      && w.Document? && DistinctKeys(es) && DistinctKeys(w.entries)
      && (forall i :: 0 <= i < |es| ==>
            Get(w.entries, es[i].0).Some? && Alike(es[i].1, Get(w.entries, es[i].0).value))
      && (forall j :: 0 <= j < |w.entries| ==> Get(es, w.entries[j].0).Some?)
    case _ => v == w
  }

  lemma {:induction false} GetIs(entries: seq<(string, Value)>, key: string)
    ensures Get(entries, key).Some? ==> (key, Get(entries, key).value) in entries
    ensures Get(entries, key).None? ==> forall e :: e in entries ==> e.0 != key
  {
    if entries != [] {
      GetIs(entries[1..], key);
      assert forall e :: e in entries ==> e == entries[0] || e in entries[1..];
    }
  }

  lemma {:induction false} GetAt(entries: seq<(string, Value)>, i: nat)
    requires DistinctKeys(entries) && i < |entries|
    ensures Get(entries, entries[i].0) == Some(entries[i].1)
  {
    if i > 0 {
      GetAt(entries[1..], i - 1);
    }
  }

  lemma {:induction false} AlikeGet(es: seq<(string, Value)>, fs: seq<(string, Value)>, key: string)
    requires Alike(Document(es), Document(fs))
    ensures Get(es, key).Some? <==> Get(fs, key).Some?
    ensures Get(es, key).Some? ==> Alike(Get(es, key).value, Get(fs, key).value)
  {
    GetIs(es, key);
    GetIs(fs, key);
    if Get(es, key).Some? {
      var i :| 0 <= i < |es| && es[i] == (key, Get(es, key).value);
    }
    if Get(fs, key).Some? {
      var j :| 0 <= j < |fs| && fs[j] == (key, Get(fs, key).value);
    }
  }

  lemma AlikeEntries(v: Option<Value>, w: Option<Value>)
    requires v.Some? <==> w.Some?
    requires v.Some? ==> Alike(v.value, w.value)
    ensures Alike(Document(EntriesOf(v)), Document(EntriesOf(w)))
  {
  }

  /** The entries with one key on either side. */
  lemma AlikeEntry(es: seq<(string, Value)>, fs: seq<(string, Value)>)
    requires Alike(Document(es), Document(fs))
    ensures forall e :: e in es ==> exists f :: f in fs && f.0 == e.0 && Alike(e.1, f.1)
    ensures forall f :: f in fs ==> exists e :: e in es && e.0 == f.0 && Alike(e.1, f.1)
  {
    forall e | e in es
      ensures exists f :: f in fs && f.0 == e.0 && Alike(e.1, f.1)
    {
      var i :| 0 <= i < |es| && es[i] == e;
      GetIs(fs, e.0);
      assert (e.0, Get(fs, e.0).value) in fs;
    }
    forall f | f in fs
      ensures exists e :: e in es && e.0 == f.0 && Alike(e.1, f.1)
    {
      var j :| 0 <= j < |fs| && fs[j] == f;
      GetAt(fs, j);
      GetIs(es, f.0);
      var i :| 0 <= i < |es| && es[i] == (f.0, Get(es, f.0).value);
      assert es[i] in es && Alike(es[i].1, f.1);
    }
  }

  /** A range operator of one side is one of the other. */
  lemma RangeCarries(es: seq<(string, Value)>, fs: seq<(string, Value)>, i: nat)
    requires Alike(Document(es), Document(fs)) && i < |es| && RangeOperator(es[i].0)
    ensures IsRange(Document(fs))
  {
    GetIs(fs, es[i].0);
    var j :| 0 <= j < |fs| && fs[j] == (es[i].0, Get(fs, es[i].0).value);
    assert RangeOperator(fs[j].0);
  }

  lemma RangeCarriesBack(es: seq<(string, Value)>, fs: seq<(string, Value)>, j: nat)
    requires Alike(Document(es), Document(fs)) && j < |fs| && RangeOperator(fs[j].0)
    ensures IsRange(Document(es))
  {
    GetIs(es, fs[j].0);
    var i :| 0 <= i < |es| && es[i] == (fs[j].0, Get(es, fs[j].0).value);
    assert RangeOperator(es[i].0);
  }

  lemma {:induction false} AlikeRange(v: Value, w: Value)
    requires Alike(v, w)
    ensures IsRange(v) == IsRange(w)
  {
    hide RangeOperator;
    if IsRange(v) {
      var i :| 0 <= i < |v.entries| && RangeOperator(v.entries[i].0);
      RangeCarries(v.entries, w.entries, i);
    }
    if IsRange(w) {
      var j :| 0 <= j < |w.entries| && RangeOperator(w.entries[j].0);
      RangeCarriesBack(v.entries, w.entries, j);
    }
  }

  lemma {:induction false} SameConditions(es: seq<(string, Value)>, fs: seq<(string, Value)>, range: bool)
    requires Alike(Document(es), Document(fs))
    ensures Members(Conditions(es, range)) == Members(Conditions(fs, range))
  {
    AlikeEntry(es, fs);
    ConditionsAre(es, range);
    ConditionsAre(fs, range);
    forall v, w | Alike(v, w)
      ensures IsRange(v) == IsRange(w)
    {
      AlikeRange(v, w);
    }
    hide Conditions, IsRange, Operator, Alike;
    forall f
      ensures f in Conditions(es, range) <==> f in Conditions(fs, range)
    {
    }
  }

  lemma {:induction false} SameDirections(es: seq<(string, Value)>, fs: seq<(string, Value)>)
    requires Alike(Document(es), Document(fs))
    ensures Members(Directions(es)) == Members(Directions(fs))
  {
    AlikeEntry(es, fs);
    DirectionsAre(es);
    DirectionsAre(fs);
    assert forall v, n :: Alike(v, Number(n)) ==> v == Number(n);
    assert forall v, n :: Alike(Number(n), v) ==> v == Number(n);
    hide Directions, Alike;
    forall k: Key
      ensures k in Directions(es) <==> k in Directions(fs)
    {
    }
  }

  lemma {:induction false} AlikeQuery(v: Value, w: Value)
    requires Alike(v, w)
    ensures QueryOf(v).Some? <==> QueryOf(w).Some?
    ensures QueryOf(v).Some? ==> Alike(Document(QueryOf(v).value), Document(QueryOf(w).value))
  {
    if v.Document? {
      AlikeGet(v.entries, w.entries, "query");
    }
  }

  lemma AlikeFilter(es: seq<(string, Value)>, fs: seq<(string, Value)>)
    requires Alike(Document(es), Document(fs))
    ensures Alike(Document(FilterOf(es)), Document(FilterOf(fs)))
  {
    hide Alike;
    AlikeGet(es, fs, "filter");
    AlikeGet(es, fs, "query");
    AlikeEntries(Get(es, "filter"), Get(fs, "filter"));
    AlikeEntries(Get(es, "query"), Get(fs, "query"));
  }

  /** The order in which a stored shape lists its entries, at any level and with or without the
      "query" wrapper, does not matter. */
  lemma StoredOrderIsIrrelevant(r: Row, q: Row, existing: Existing)
    requires r.namespace == q.namespace && r.hash == q.hash && Alike(r.structure, q.structure)
    ensures Proposed(r, existing) == Proposed(q, existing)
  {
    hide Alike, Conditions, Directions, Generated, Get;
    AlikeQuery(r.structure, q.structure);
    var query, query' := QueryOf(r.structure), QueryOf(q.structure);
    var parts := Partition(r.namespace);
    if query.Some? && parts.Some? && r.namespace in existing {
      AlikeFilter(query.value, query'.value);
      SameConditions(FilterOf(query.value), FilterOf(query'.value), false);
      SameConditions(FilterOf(query.value), FilterOf(query'.value), true);
      AlikeGet(query.value, query'.value, "sort");
      AlikeEntries(Get(query.value, "sort"), Get(query'.value, "sort"));
      SameDirections(EntriesOf(Get(query.value, "sort")), EntriesOf(Get(query'.value, "sort")));
      var f, g := FindFields(r.structure).value, FindFields(q.structure).value;
      GenerationIsCanonical(Shape(r.hash, parts.value.0, parts.value.1, f.equality, f.sort, f.range),
                            Shape(q.hash, parts.value.0, parts.value.1, g.equality, g.sort, g.range));
    }
  }
}
