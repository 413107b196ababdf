/** The in-memory services as objects on a shared heap: the adapter's dictionary, the append-only
    ledger, the executor and the rollbacker.  Their calls change the heap exactly as specified. */
module IndexServices {
  import opened Sorting
  import opened Catalog
  import opened HashChain
  import opened IndexOperations

  class FakeDatabaseAdapter {
    var indexes: Indexes

    constructor (collections: set<string>)
      ensures indexes == map c | c in collections :: map[]
    {
      indexes := map c | c in collections :: map[];
    }

    method ListNamespaces() returns (names: seq<string>)
      ensures names == Ascending(indexes.Keys)
    {
      return Ascending(indexes.Keys);
    }

    method ListIndexes(collection: string) returns (specs: seq<IndexSpec>)
      ensures specs == if collection in indexes then Listing(indexes[collection]) else []
    {
      return if collection in indexes then Listing(indexes[collection]) else [];
    }

    method CreateIndex(collection: string, index: IndexSpec)
      modifies this
      ensures indexes == CreatedIn(old(indexes), collection, index)
    {
      var entry: map<string, Keys> := if collection in indexes then indexes[collection] else map[];
      indexes := indexes[collection := entry[index.name := index.keys]];
    }

    method DropIndex(collection: string, name: string)
      modifies this
      ensures indexes == DroppedIn(old(indexes), collection, name)
    {
      if collection in indexes {
        indexes := indexes[collection := indexes[collection] - {name}];
      }
    }

    /** The observation both services take before and after a mutation. */
    method CurrentState(database: string, collection: string) returns (state: TargetState)
      ensures state == IndexOperations.CurrentState(indexes, database, collection)
    {
      var namespaces := ListNamespaces();
      var specs: seq<IndexSpec> := [];
      if collection in namespaces {
        specs := ListIndexes(collection);
      }
      return TargetState(database, collection, State(collection in namespaces, specs));
    }
  }

  class AppendOnlyLedger {
    const hash: Hasher
    var entries: seq<LedgerRow>

    constructor (hash: Hasher)
      ensures entries == [] && this.hash == hash
    {
      this.hash, entries := hash, [];
    }

    method Append(e: Entry) returns (row: LedgerRow)
      modifies this
      ensures entries == HashChain.Append(old(entries), e, hash)
      ensures row == Last(entries)
    {
      hide GENESIS;
      var previous := if entries == [] then GENESIS else entries[|entries| - 1].hash;
      row := Row(e, previous, hash(e, previous));
      entries := entries + [row];
    }

    /** `next(item for item in entries if …)`. */
    method Lookup(id: string) returns (found: Option<Entry>)
      ensures found == Find(entries, id)
    {
      for i := 0 to |entries|
        invariant Find(entries, id) == Find(entries[i..], id)
      {
        assert entries[i..][1..] == entries[i + 1..];
        if entries[i].content.id == id {
          return Some(entries[i].content);
        }
      }
      return None;
    }
  }

  class ProductionExecutor {
    const adapter: FakeDatabaseAdapter
    const ledger: AppendOnlyLedger
    var locks: map<string, bool>

    constructor (adapter: FakeDatabaseAdapter, ledger: AppendOnlyLedger)
      ensures this.adapter == adapter && this.ledger == ledger && locks == map[]
    {
      this.adapter, this.ledger, locks := adapter, ledger, map[];
    }

    function World(): World
      reads adapter, ledger
    {
      IndexOperations.World(adapter.indexes, ledger.entries)
    }

    /** Every path leaves the target's lock free. */
    method Deploy(q: DeployRequest) returns (result: DeployResult)
      requires forall t :: t in locks ==> !locks[t]
      modifies this, adapter, ledger
      ensures Deployment(World(), result) == DeployCall(old(World()), q, ledger.hash)
      ensures forall t :: t in locks ==> !locks[t]
    {
      if !q.admitted || !q.productionEligible {
        return NotAdmitted;
      }
      locks := locks[q.target := true];
      result := DeployLocked(q);
      locks := locks[q.target := false];
    }

    method DeployLocked(q: DeployRequest) returns (result: DeployResult)
      requires q.admitted && q.productionEligible
      modifies adapter, ledger
      ensures Deployment(World(), result) == DeployCall(old(World()), q, ledger.hash)
    {
      hide Listing, GENESIS;
      var a := q.action;
      if q.approvalNeeded && !q.approvalHeld {
        return ApprovalMissing;
      }
      var before := adapter.CurrentState(a.database, a.collection);
      if before != q.expected {
        return StateDiffers;
      }
      if !before.view.namespaceExists {
        return NamespaceAbsent;
      }
      if Named(before.view.indexes, a.index.name) != [] {
        return IndexExists;
      }
      var prepared := ledger.Append(DeployEntry(q, PREPARED, before, before));
      adapter.CreateIndex(a.collection, a.index);
      var after := adapter.CurrentState(a.database, a.collection);
      if !VerifyApplied(after, a) {
        return ResultMismatch;
      }
      var applied := ledger.Append(DeployEntry(q, APPLIED, before, after));
      return Deployed(prepared, applied, after);
    }
  }

  class OwnedIndexRollbacker {
    const adapter: FakeDatabaseAdapter
    const ledger: AppendOnlyLedger

    constructor (adapter: FakeDatabaseAdapter, ledger: AppendOnlyLedger)
      ensures this.adapter == adapter && this.ledger == ledger
    {
      this.adapter, this.ledger := adapter, ledger;
    }

    function World(): World
      reads adapter, ledger
    {
      IndexOperations.World(adapter.indexes, ledger.entries)
    }

    method Rollback(q: RollbackRequest) returns (result: RollbackResult)
      modifies adapter, ledger
      ensures Undo(World(), result) == RollbackCall(old(World()), q, ledger.hash)
    {
      hide Listing, GENESIS;
      var found := ledger.Lookup(q.entryId);
      if found.None? {
        return Blocked([LEDGER_OWNERSHIP_MISSING]);
      }
      var e := found.value;
      var failures := VerifyOwnership(e, q.target);
      if failures != [] {
        return Blocked(failures);
      }
      var a := e.forward.action;
      var before := adapter.CurrentState(a.database, a.collection);
      adapter.DropIndex(a.collection, a.index.name);
      var after := adapter.CurrentState(a.database, a.collection);
      if Named(after.view.indexes, a.index.name) != [] {
        return Blocked([RESULTING_STATE_MISMATCH]);
      }
      var row := ledger.Append(RollbackEntry(q, e, before, after));
      return RolledBack(row);
    }

    /** The failure list, check by check. */
    method VerifyOwnership(e: Entry, target: string) returns (failures: seq<Reason>)
      ensures failures == IndexOperations.VerifyOwnership(adapter.indexes, e, target)
      ensures failures == [] ==> e.forward.CreateIndex?
    {
      hide Listing;
      failures := [];
      if e.forward.DropIndex? || !e.forward.phase.APPLIED? {
        return [LEDGER_OWNERSHIP_MISSING];
      }
      var a := e.forward.action;
      if e.forward.target != target {
        failures := failures + [TARGET_MISMATCH];
      }
      var current := adapter.CurrentState(a.database, a.collection);
      if !current.view.namespaceExists {
        failures := failures + [NAMESPACE_MISMATCH];
        return;
      }
      var matching := Named(current.view.indexes, a.index.name);
      if |matching| != 1 || matching[0].keys != a.index.keys {
        failures := failures + [INDEX_SPEC_MISMATCH];
      }
      if |matching| != 1 || matching[0] != e.forward.fingerprint {
        failures := failures + [FINGERPRINT_MISMATCH];
      }
      if current != e.after {
        failures := failures + [RELEVANT_DRIFT_DETECTED];
      }
    }
  }
}
