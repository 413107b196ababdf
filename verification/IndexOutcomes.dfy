/** What an in-memory deployment or rollback answers and records, on any dictionary and any entry. */
module IndexOutcomes {
  import opened Catalog
  import opened HashChain
  import opened IndexOperations
  import opened IndexRollback

  /** The dictionary has this index. */
  ghost predicate Has(indexes: Indexes, collection: string, index: IndexSpec) {
    collection in indexes && index.name in indexes[collection] && indexes[collection][index.name] == index.keys
  }

  // ------------------------------------------------------------ deployment

  /** Each refusal, in the order of the checks, and what it is about; the created index is never missing. */
  lemma RefusalsExactly(w: World, q: DeployRequest, h: Hasher)
    ensures var a, r := q.action, DeployCall(w, q, h).result;
            var gates := q.admitted && q.productionEligible;
            var approved := q.approvalNeeded ==> q.approvalHeld;
            var current := q.expected == CurrentState(w.indexes, a.database, a.collection);
            && (r == NotAdmitted <==> !gates)
            && (r == ApprovalMissing <==> gates && !approved)
            && (r == StateDiffers <==> gates && approved && !current)
            && (r == NamespaceAbsent <==> gates && approved && current && a.collection !in w.indexes)
            && (r == IndexExists <==>
                  gates && approved && current && a.collection in w.indexes && a.index.name in w.indexes[a.collection])
            && r != ResultMismatch
  {
    hide Listing, Named;
    var a := q.action;
    if a.collection in w.indexes {
      CreatedView(w.indexes[a.collection], a.index);
    }
  }

  /** The verification after the creation, on whatever is observed then. */
  lemma AppliedExactly(database: string, collection: string, t: Namespace, a: Action)
    ensures VerifyApplied(TargetState(database, collection, View(t)), a) <==>
            t.Present? && a.index.name in t.indexes && t.indexes[a.index.name] == a.index.keys
  {
    hide Listing;
    if t.Present? {
      NamedView(t.indexes, a.index.name);
      hide Named;
    }
  }

  /** A success records two rows, prepared and applied, each linked to its predecessor: both bind the request's
      target, action, evidence and actor and the exact inverse; they go from the observed state to that state
      with the index listed last, the prepared one still showing the former and the applied one what is there
      after the creation.  The result names both and that state. */
  lemma RecordsExactly(w: World, q: DeployRequest, h: Hasher)
    requires DeployCall(w, q, h).result.Deployed?
    ensures var a, r := q.action, DeployCall(w, q, h);
            var n := |w.ledger|;
            var before := CurrentState(w.indexes, a.database, a.collection);
            var after := CurrentState(r.world.indexes, a.database, a.collection);
            var intended := TargetState(a.database, a.collection, State(true, before.view.indexes + [a.index]));
            var inverse := DropIndex(NoPhase, a.database, a.collection, a.index.name);
            && |r.world.ledger| == n + 2 && r.world.ledger[..n] == w.ledger
            && r.world.ledger[n].content
               == Entry(q.ids.0, q.times.0, before, intended, before,
                        CreateIndex(PREPARED, q.target, a.index, a), inverse, q.evidence, q.actor)
            && r.world.ledger[n + 1].content
               == Entry(q.ids.1, q.times.1, before, intended, after,
                        CreateIndex(APPLIED, q.target, a.index, a), inverse, q.evidence, q.actor)
            && r.result == Deployed(r.world.ledger[n], r.world.ledger[n + 1], after)
            && Has(r.world.indexes, a.collection, a.index)
  {
    hide Listing, Named, GENESIS, Head;
    DeployIff(w, q, h);
  }

  // ------------------------------------------------------------ rollback

  /** The place of a reason in the list of failures. */
  function Order(r: Reason): nat {
    match r
    case LEDGER_OWNERSHIP_MISSING => 0
    case TARGET_MISMATCH => 1
    case NAMESPACE_MISMATCH => 2
    case INDEX_SPEC_MISMATCH => 3
    case FINGERPRINT_MISMATCH => 4
    case RELEVANT_DRIFT_DETECTED => 5
    case RESULTING_STATE_MISMATCH => 6
  }

  ghost predicate AppliedCreation(e: Entry) {
    e.forward.CreateIndex? && e.forward.phase == APPLIED
  }

  ghost predicate InOrder(rs: seq<Reason>) {
    forall i, j :: 0 <= i < j < |rs| ==> Order(rs[i]) < Order(rs[j])
  }

  /** The four checks on a collection that is there. */
  lemma FourChecks(target: bool, spec: bool, fingerprint: bool, drift: bool)
    ensures var rs := When(target, TARGET_MISMATCH) + When(spec, INDEX_SPEC_MISMATCH)
                      + When(fingerprint, FINGERPRINT_MISMATCH) + When(drift, RELEVANT_DRIFT_DETECTED);
            && InOrder(rs)
            && (forall r :: r in rs <==>
                  || (r == TARGET_MISMATCH && target) || (r == INDEX_SPEC_MISMATCH && spec)
                  || (r == FINGERPRINT_MISMATCH && fingerprint) || (r == RELEVANT_DRIFT_DETECTED && drift))
  {
  }

  lemma PresentChecks(indexes: Indexes, e: Entry, target: string)
    requires AppliedCreation(e) && e.forward.action.collection in indexes
    ensures var a := e.forward.action;
            VerifyOwnership(indexes, e, target)
            == When(e.forward.target != target, TARGET_MISMATCH)
               + When(!Has(indexes, a.collection, a.index), INDEX_SPEC_MISMATCH)
               + When(!(e.forward.fingerprint.name == a.index.name
                        && Has(indexes, a.collection, e.forward.fingerprint)),
                      FINGERPRINT_MISMATCH)
               + When(e.after != TargetState(a.database, a.collection, View(Present(indexes[a.collection]))),
                      RELEVANT_DRIFT_DETECTED)
  {
    hide Named, Listing, When;
    NamedView(indexes[e.forward.action.collection], e.forward.action.index.name);
  }

  /** An entry that is no APPLIED creation is not owned; otherwise a wrong target, a missing collection, and
      in one that is there another or no index of this name, another fingerprint, and any difference from
      the recorded after state. */
  ghost predicate Fails(indexes: Indexes, e: Entry, target: string, r: Reason) {
    if !AppliedCreation(e) then r == LEDGER_OWNERSHIP_MISSING
    else
      var a := e.forward.action;
      var present := a.collection in indexes;
      match r
      case LEDGER_OWNERSHIP_MISSING => false
      case TARGET_MISMATCH => e.forward.target != target
      case NAMESPACE_MISMATCH => !present
      case INDEX_SPEC_MISMATCH => present && !Has(indexes, a.collection, a.index)
      case FINGERPRINT_MISMATCH =>
        present && !(e.forward.fingerprint.name == a.index.name && Has(indexes, a.collection, e.forward.fingerprint))
      case RELEVANT_DRIFT_DETECTED =>
        present && e.after != TargetState(a.database, a.collection, View(Present(indexes[a.collection])))
      case RESULTING_STATE_MISMATCH => false
  }

  lemma AbsentFailures(indexes: Indexes, e: Entry, target: string, r: Reason)
    requires !AppliedCreation(e) || e.forward.action.collection !in indexes
    ensures InOrder(VerifyOwnership(indexes, e, target))
    ensures r in VerifyOwnership(indexes, e, target) <==> Fails(indexes, e, target, r)
  {
    hide Named, Listing;
  }

  lemma PresentFailures(indexes: Indexes, e: Entry, target: string, r: Reason)
    requires AppliedCreation(e) && e.forward.action.collection in indexes
    ensures InOrder(VerifyOwnership(indexes, e, target))
    ensures r in VerifyOwnership(indexes, e, target) <==> Fails(indexes, e, target, r)
  {
    hide VerifyOwnership, When, Has, View, InOrder;
    var a := e.forward.action;
    PresentChecks(indexes, e, target);
    FourChecks(e.forward.target != target, !Has(indexes, a.collection, a.index),
               !(e.forward.fingerprint.name == a.index.name && Has(indexes, a.collection, e.forward.fingerprint)),
               e.after != TargetState(a.database, a.collection, View(Present(indexes[a.collection]))));
  }

  /** Exactly the failures there are, each once and in order. */
  lemma FailuresExactly(indexes: Indexes, e: Entry, target: string, r: Reason)
    ensures InOrder(VerifyOwnership(indexes, e, target))
    ensures r in VerifyOwnership(indexes, e, target) <==> Fails(indexes, e, target, r)
  {
    hide VerifyOwnership, Fails, InOrder;
    if AppliedCreation(e) && e.forward.action.collection in indexes {
      PresentFailures(indexes, e, target, r);
    } else {
      AbsentFailures(indexes, e, target, r);
    }
  }

  /** What a rollback answers: no entry is not owned, failures are returned as they are, and otherwise the
      row it appended. */
  lemma AnswersExactly(w: World, q: RollbackRequest, h: Hasher)
    ensures var r, found := RollbackCall(w, q, h), Find(w.ledger, q.entryId);
            if found.None? then r == Undo(w, Blocked([LEDGER_OWNERSHIP_MISSING]))
            else if VerifyOwnership(w.indexes, found.value, q.target) != [] then
              r == Undo(w, Blocked(VerifyOwnership(w.indexes, found.value, q.target)))
            else
              && |r.world.ledger| == |w.ledger| + 1 && r.result == RolledBack(r.world.ledger[|w.ledger|])
              && r.world.indexes == DroppedIn(w.indexes, found.value.forward.action.collection,
                                              found.value.forward.action.index.name)
  {
    hide Listing, Named, GENESIS, Head, VerifyOwnership;
    var found := Find(w.ledger, q.entryId);
    if found.Some? && VerifyOwnership(w.indexes, found.value, q.target) == [] {
      FailuresExactly(w.indexes, found.value, q.target, LEDGER_OWNERSHIP_MISSING);
      FailuresExactly(w.indexes, found.value, q.target, NAMESPACE_MISMATCH);
      var a := found.value.forward.action;
      CreatedView(w.indexes[a.collection], a.index);
    }
  }

  /** The entry found is the first of its identifier. */
  lemma {:induction false} FindsFirst(rows: seq<LedgerRow>, id: string)
    ensures Find(rows, id).Some? ==>
              exists i :: 0 <= i < |rows| && rows[i].content == Find(rows, id).value
                          && forall j :: 0 <= j < i ==> rows[j].content.id != id
  {
    if rows != [] {
      if rows[0].content.id == id {
        assert rows[0].content == Find(rows, id).value;
      } else {
        FindsFirst(rows[1..], id);
        if Find(rows, id).Some? {
          var i :| 0 <= i < |rows| - 1 && rows[1..][i].content == Find(rows[1..], id).value
                   && forall j :: 0 <= j < i ==> rows[1..][j].content.id != id;
          assert rows[i + 1].content == Find(rows, id).value;
          assert forall j :: 0 < j < i + 1 ==> rows[j] == rows[1..][j - 1];
        }
      }
    }
  }
}
