/** The in-memory production path: deploying typed index actions, the hash-chained action ledger,
    and ownership-verified rollback of one ledger entry.  State and index fingerprints are
    represented by the values they digest. */
module IndexOperations {
  import opened Catalog
  import opened HashChain

  type Indexes = map<string, map<string, Keys>>

  datatype Action = Action(database: string, collection: string, index: IndexSpec)

  datatype TargetState = TargetState(database: string, collection: string, view: State)

  datatype Phase = PREPARED | APPLIED | ROLLED_BACK | NoPhase

  datatype Recorded =
    | CreateIndex(phase: Phase, target: string, fingerprint: IndexSpec, action: Action)
    | DropIndex(phase: Phase, database: string, collection: string, name: string)

  datatype Entry = Entry(
    id: string, createdAt: int, before: TargetState, intended: TargetState, after: TargetState,
    forward: Recorded, inverse: Recorded, evidence: string, actor: string)

  type LedgerRow = Row<Entry>
  type Hasher = (Entry, string) -> string

  datatype World = World(indexes: Indexes, ledger: seq<LedgerRow>)

  // ------------------------------------------------------------ the adapter's dictionary

  function NamespaceOf(indexes: Indexes, collection: string): Namespace {
    if collection in indexes then Present(indexes[collection]) else Absent
  }

  function CreatedIn(indexes: Indexes, collection: string, index: IndexSpec): Indexes {
    indexes[collection := (if collection in indexes then indexes[collection] else map[])[index.name := index.keys]]
  }

  function DroppedIn(indexes: Indexes, collection: string, name: string): Indexes {
    if collection in indexes then indexes[collection := indexes[collection] - {name}] else indexes
  }

  function CurrentState(indexes: Indexes, database: string, collection: string): TargetState {
    TargetState(database, collection, View(NamespaceOf(indexes, collection)))
  }

  // ------------------------------------------------------------ deploy

  /** A deployment request; `approvalHeld` is what the approval flow answers, the identifiers and
      times are what `uuid4` and the clock return to the two ledger appends. */
  datatype DeployRequest = DeployRequest(
    target: string, action: Action, admitted: bool, productionEligible: bool, approvalNeeded: bool, approvalHeld: bool,
    evidence: string, expected: TargetState, actor: string, ids: (string, string), times: (int, int))

  datatype DeployResult =
    | Deployed(prepared: LedgerRow, applied: LedgerRow, resulting: TargetState)
    | NotAdmitted | ApprovalMissing | StateDiffers | NamespaceAbsent | IndexExists | ResultMismatch

  function Intended(before: TargetState, action: Action): TargetState {
    before.(view := before.view.(indexes := before.view.indexes + [action.index]))
  }

  predicate VerifyApplied(after: TargetState, action: Action) {
    var matching := Named(after.view.indexes, action.index.name);
    |matching| == 1 && matching[0].keys == action.index.keys
  }

  function DeployEntry(q: DeployRequest, phase: Phase, before: TargetState, after: TargetState): Entry {
    var a := q.action;
    Entry(if phase.PREPARED? then q.ids.0 else q.ids.1, if phase.PREPARED? then q.times.0 else q.times.1,
          before, Intended(before, a), after, CreateIndex(phase, q.target, a.index, a),
          DropIndex(NoPhase, a.database, a.collection, a.index.name), q.evidence, q.actor)
  }

  function Last(rows: seq<LedgerRow>): LedgerRow
    requires rows != []
  {
    rows[|rows| - 1]
  }

  datatype Deployment = Deployment(world: World, result: DeployResult)

  function DeployCall(w: World, q: DeployRequest, h: Hasher): Deployment {
    var a := q.action;
    var before := CurrentState(w.indexes, a.database, a.collection);
    if !q.admitted || !q.productionEligible then Deployment(w, NotAdmitted)
    else if q.approvalNeeded && !q.approvalHeld then Deployment(w, ApprovalMissing)
    else if before != q.expected then Deployment(w, StateDiffers)
    else if !before.view.namespaceExists then Deployment(w, NamespaceAbsent)
    else if Named(before.view.indexes, a.index.name) != [] then Deployment(w, IndexExists)
    else
      var prepared := Append(w.ledger, DeployEntry(q, PREPARED, before, before), h);
      var indexes := CreatedIn(w.indexes, a.collection, a.index);
      var after := CurrentState(indexes, a.database, a.collection);
      if !VerifyApplied(after, a) then Deployment(World(indexes, prepared), ResultMismatch)
      else
        var applied := Append(prepared, DeployEntry(q, APPLIED, before, after), h);
        Deployment(World(indexes, applied), Deployed(Last(prepared), Last(applied), after))
  }

  // ------------------------------------------------------------ rollback

  datatype RollbackRequest = RollbackRequest(target: string, entryId: string, actor: string, id: string, time: int)

  datatype Reason =
    | LEDGER_OWNERSHIP_MISSING | TARGET_MISMATCH | NAMESPACE_MISMATCH | INDEX_SPEC_MISMATCH
    | FINGERPRINT_MISMATCH | RELEVANT_DRIFT_DETECTED | RESULTING_STATE_MISMATCH

  datatype RollbackResult = RolledBack(row: LedgerRow) | Blocked(reasons: seq<Reason>)

  /** The first entry with this identifier. */
  function Find(rows: seq<LedgerRow>, id: string): (r: Option<Entry>)
    ensures r.Some? ==> r.value.id == id && exists i :: 0 <= i < |rows| && rows[i].content == r.value
    ensures r.None? ==> forall i :: 0 <= i < |rows| ==> rows[i].content.id != id
  {
    if rows == [] then None
    else if rows[0].content.id == id then Some(rows[0].content)
    else Find(rows[1..], id)
  }

  function When(failed: bool, reason: Reason): seq<Reason> {
    if failed then [reason] else []
  }

  function VerifyOwnership(indexes: Indexes, e: Entry, target: string): seq<Reason> {
    if e.forward.DropIndex? || !e.forward.phase.APPLIED? then [LEDGER_OWNERSHIP_MISSING]
    else
      var a := e.forward.action;
      var current := CurrentState(indexes, a.database, a.collection);
      var wrongTarget := When(e.forward.target != target, TARGET_MISMATCH);
      if !current.view.namespaceExists then wrongTarget + [NAMESPACE_MISMATCH]
      else
        var matching := Named(current.view.indexes, a.index.name);
        wrongTarget
        + When(|matching| != 1 || matching[0].keys != a.index.keys, INDEX_SPEC_MISMATCH)
        + When(|matching| != 1 || matching[0] != e.forward.fingerprint, FINGERPRINT_MISMATCH)
        + When(current != e.after, RELEVANT_DRIFT_DETECTED)
  }

  /** The recorded inverse under the phase of a rollback, unless it carries a phase of its own. */
  function Undoing(inverse: Recorded): Recorded {
    if inverse.phase.NoPhase? then inverse.(phase := ROLLED_BACK) else inverse
  }

  function RollbackEntry(q: RollbackRequest, e: Entry, before: TargetState, after: TargetState): Entry {
    Entry(q.id, q.time, before, after, after, Undoing(e.inverse), e.forward, e.evidence, q.actor)
  }

  datatype Undo = Undo(world: World, result: RollbackResult)

  function RollbackCall(w: World, q: RollbackRequest, h: Hasher): Undo {
    var found := Find(w.ledger, q.entryId);
    if found.None? then Undo(w, Blocked([LEDGER_OWNERSHIP_MISSING]))
    else
      var e := found.value;
      var failures := VerifyOwnership(w.indexes, e, q.target);
      if failures != [] then Undo(w, Blocked(failures))
      else
        var a := e.forward.action;
        var before := CurrentState(w.indexes, a.database, a.collection);
        var indexes := DroppedIn(w.indexes, a.collection, a.index.name);
        var after := CurrentState(indexes, a.database, a.collection);
        if Named(after.view.indexes, a.index.name) != [] then
          Undo(World(indexes, w.ledger), Blocked([RESULTING_STATE_MISMATCH]))
        else
          var ledger := Append(w.ledger, RollbackEntry(q, e, before, after), h);
          Undo(World(indexes, ledger), RolledBack(Last(ledger)))
  }

  // ------------------------------------------------------------ runs

  datatype Call = DeployIt(deploy: DeployRequest) | RollItBack(rollback: RollbackRequest)

  function Step(w: World, c: Call, h: Hasher): World {
    match c
    case DeployIt(q) => DeployCall(w, q, h).world
    case RollItBack(q) => RollbackCall(w, q, h).world
  }

  function Calls(w: World, cs: seq<Call>, h: Hasher): World
    decreases |cs|
  {
    if cs == [] then w else Calls(Step(w, cs[0], h), cs[1..], h)
  }
}
