/** What a rollback may do in any reachable world, and the stack discipline it induces. */
module IndexRollback {
  import opened Catalog
  import opened HashChain
  import opened IndexOperations

  /** An APPLIED creation was recorded on a collection that existed without the index, and its
      after state is that collection with the index. */
  ghost predicate Faithful(e: Entry) {
    e.forward.CreateIndex? && e.forward.phase.APPLIED? ==>
      exists m: map<string, Keys> :: Brackets(e, m)
  }

  /** `m` is the index dictionary of the collection right before the creation. */
  ghost predicate Brackets(e: Entry, m: map<string, Keys>) {
    e.forward.CreateIndex? &&
    var a := e.forward.action;
    && a.index.name !in m
    && e.before == TargetState(a.database, a.collection, View(Present(m)))
    && e.after == TargetState(a.database, a.collection, View(Created(Present(m), a.index)))
    && e.forward.fingerprint == a.index
    && e.inverse == DropIndex(NoPhase, a.database, a.collection, a.index.name)
  }

  ghost predicate Valid(w: World, h: Hasher) {
    Verifies(w.ledger, h) && forall i :: 0 <= i < |w.ledger| ==> Faithful(w.ledger[i].content)
  }

  lemma CreatedView(m: map<string, Keys>, index: IndexSpec)
    ensures Named(Listing(m[index.name := index.keys]), index.name) == [index]
    ensures Named(Listing(m - {index.name}), index.name) == []
    ensures Named(Listing(m), index.name) == [] <==> index.name !in m
  {
    NamedView(m[index.name := index.keys], index.name);
    NamedView(m - {index.name}, index.name);
    NamedView(m, index.name);
  }

  /** A deployment succeeds exactly when the gates hold, the state is the one its evidence was
      taken on, and the collection exists without the index; otherwise nothing changes. */
  lemma DeployIff(w: World, q: DeployRequest, h: Hasher)
    ensures var a := q.action;
            var r := DeployCall(w, q, h);
            && (r.result.Deployed? <==>
                  && q.admitted && q.productionEligible && (q.approvalNeeded ==> q.approvalHeld)
                  && q.expected == CurrentState(w.indexes, a.database, a.collection)
                  && a.collection in w.indexes && a.index.name !in w.indexes[a.collection])
            && (!r.result.Deployed? ==> r.world == w)
            && (r.result.Deployed? ==>
                  r.world.indexes == CreatedIn(w.indexes, a.collection, a.index) && |r.world.ledger| == |w.ledger| + 2)
  {
    hide Listing, Named;
    var a := q.action;
    if a.collection in w.indexes {
      CreatedView(w.indexes[a.collection], a.index);
    }
  }

  lemma DeployValid(w: World, q: DeployRequest, h: Hasher)
    requires Valid(w, h)
    ensures Valid(DeployCall(w, q, h).world, h)
  {
    hide Listing, Named, GENESIS, Head, Verifies, Faithful;
    var a := q.action;
    var w' := DeployCall(w, q, h).world;
    DeployIff(w, q, h);
    if w' != w {
      var m := w.indexes[a.collection];
      var before := CurrentState(w.indexes, a.database, a.collection);
      var after := CurrentState(w'.indexes, a.database, a.collection);
      var e1, e2 := DeployEntry(q, PREPARED, before, before), DeployEntry(q, APPLIED, before, after);
      var ledger := Append(w.ledger, e1, h);
      assert w'.ledger == Append(ledger, e2, h);
      AppendVerifies(w.ledger, e1, h);
      AppendVerifies(ledger, e2, h);
      DeployFaithful(q, before, after, m);
    }
  }

  lemma DeployFaithful(q: DeployRequest, before: TargetState, after: TargetState, m: map<string, Keys>)
    requires var a := q.action;
             && a.index.name !in m && before == TargetState(a.database, a.collection, View(Present(m)))
             && after == TargetState(a.database, a.collection, View(Created(Present(m), a.index)))
    ensures Faithful(DeployEntry(q, PREPARED, before, before)) && Faithful(DeployEntry(q, APPLIED, before, after))
  {
    hide Listing;
    assert Brackets(DeployEntry(q, APPLIED, before, after), m);
  }

  /** In every reachable world a rollback succeeds exactly when the identifier names an APPLIED
      creation on this target and the collection is in the state that creation left.  It then puts
      the collection back into the recorded before state, touches no other collection, and appends
      the inverse; a blocked rollback changes nothing. */
  lemma RollbackIff(w: World, q: RollbackRequest, h: Hasher)
    requires Valid(w, h)
    ensures var r := RollbackCall(w, q, h);
            var found := Find(w.ledger, q.entryId);
            && (r.result.RolledBack? <==>
                  && found.Some? && found.value.forward.CreateIndex? && found.value.forward.phase.APPLIED?
                  && found.value.forward.target == q.target
                  && CurrentState(w.indexes, found.value.after.database, found.value.after.collection)
                     == found.value.after)
            && (r.result.Blocked? ==> r.world == w)
            && (r.result.RolledBack? ==>
                  var e := found.value;
                  && CurrentState(r.world.indexes, e.before.database, e.before.collection) == e.before
                  && e.before.collection == e.after.collection
                  && r.world.indexes - {e.after.collection} == w.indexes - {e.after.collection}
                  && |r.world.ledger| == |w.ledger| + 1 && w.ledger <= r.world.ledger
                  && r.world.ledger[|w.ledger|].content
                     == Entry(q.id, q.time, e.after, e.before, e.before,
                              DropIndex(ROLLED_BACK, e.after.database, e.after.collection, e.forward.action.index.name),
                              e.forward, e.evidence, q.actor))
  {
    hide Listing, Named, GENESIS, Verifies;
    var found := Find(w.ledger, q.entryId);
    if found.Some? && found.value.forward.CreateIndex? && found.value.forward.phase.APPLIED? {
      var e := found.value;
      var a := e.forward.action;
      var m :| Brackets(e, m);
      var t := NamespaceOf(w.indexes, a.collection);
      ViewInjective(t, Created(Present(m), a.index));
      DropUndoesCreate(Present(m), a.index);
      CreatedView(m, a.index);
      if t.Present? {
        CreatedView(t.indexes, a.index);
      }
    }
  }

  lemma RollbackValid(w: World, q: RollbackRequest, h: Hasher)
    requires Valid(w, h)
    ensures Valid(RollbackCall(w, q, h).world, h)
  {
    hide Listing, Named, GENESIS, Head, Verifies;
    RollbackIff(w, q, h);
    var w' := RollbackCall(w, q, h).world;
    if w' != w {
      var e := Find(w.ledger, q.entryId).value;
      AppendVerifies(w.ledger, w'.ledger[|w.ledger|].content, h);
      assert !w'.ledger[|w.ledger|].content.forward.CreateIndex?;
    }
  }

  lemma {:induction false} CallsValid(w: World, cs: seq<Call>, h: Hasher)
    requires Valid(w, h)
    ensures Valid(Calls(w, cs, h), h)
    decreases |cs|
  {
    hide Valid;
    if cs != [] {
      match cs[0] {
        case DeployIt(q) => DeployValid(w, q, h);
        case RollItBack(q) => RollbackValid(w, q, h);
      }
      CallsValid(Step(w, cs[0], h), cs[1..], h);
    }
  }

  /** After any calls from any indexes, each recorded rollback would restore exactly what its
      entry recorded, and the ledger's chain verifies. */
  lemma {:induction false} Reachable(indexes: Indexes, cs: seq<Call>, h: Hasher)
    ensures Valid(Calls(World(indexes, []), cs, h), h)
  {
    CallsValid(World(indexes, []), cs, h);
  }
}
