/** The crash-safe production change protocol of one optimization run.

    Any number of workers deploy and roll back concurrently.  Every transaction, every target
    operation and every observation is one step; a worker may stop with an exception or die
    between any two of them.  `Exec` is one worker's next step, `Apply` one step of the system. */
module DeployProtocol {
  import opened Catalog
  import opened Lifecycle

  /** The immutable facts a run's authority binds: the typed action and the candidate's fingerprint. */
  datatype Binding = Binding(index: IndexSpec, candidateFingerprint: string)

  datatype ArtifactStatus = IntentRecorded | Applied

  datatype Artifact = Artifact(binding: Binding, status: ArtifactStatus, before: State, after: Option<State>)

  /** EFFECT_OBSERVED is overwritten inside the transaction that writes it, so nobody sees it. */
  datatype RecoveryState = ExecutionIntent | ExecutionStarted | ExecutionConfirmed

  datatype Recovery = Recovery(expected: IndexSpec, state: RecoveryState)

  datatype Reason =
    | CandidateFingerprintDrift | ArtifactInvalid | NamespaceMismatch | IndexSpecMismatch
    | RelevantDrift | InverseUnverified | TargetLockUnavailable

  /** The rollback row; its status is the constructor, its payload the arguments. */
  datatype RollbackRecord =
    | RollbackIntent(before: State, expectedAfter: State)
    | RolledBack(before: State, after: State)
    | RollbackBlocked(reason: Reason, state: State)

  datatype Event =
    | DeploymentIntent(before: State)
    | DeploymentApplied(before: State, after: State)
    | RollbackApplied(before: State, after: State)

  /** Everything that survives a crash.  `creates` and `drops` count the target mutations issued. */
  datatype Shared = Shared(
    target: Namespace,
    status: RunStatus,
    artifact: Option<Artifact>,
    recovery: Option<Recovery>,
    record: Option<RollbackRecord>,
    ledger: seq<Event>,
    lock: Option<WorkerId>,
    creates: nat,
    drops: nat)

  datatype Result = Succeeded | Failed | ReportedRolledBack | ReportedBlocked(reason: Reason)

  /** What the rollback loads before it takes the lock. */
  datatype Bound = Bound(candidateFingerprint: string, index: IndexSpec, after: Option<State>)

  /** Program points of `deploy_for_run` with the locals still needed there. */
  datatype DeployPc =
    | DLoad
    | DAcquire(runStatus: RunStatus)
    | DReadBefore(runStatus: RunStatus)
    | DIntent(runStatus: RunStatus, before: State)
    | DBegin(runStatus: RunStatus, before: State, applied: bool, created: bool)
    | DRecheck
    | DRecordIntent(before: State, created: bool)
    | DLedgerIntent(before: State)
    | DExecStart(before: State)
    | DObserve(before: State, expected: IndexSpec)
    | DCreate(before: State)
    | DConfirm(before: State)
    | DReadAfter(before: State)
    | DMark(before: State, after: State)
    | DLedgerApplied(before: State, after: State)
    | DReadStatus
    | DFinish

  /** Program points of `rollback_for_run`. */
  datatype RollbackPc =
    | RBound
    | ROutcome(bound: Bound)
    | RAcquire(bound: Bound)
    | RReadState(bound: Bound)
    | RReadRecord(bound: Bound, state: State)
    | RBlock(reason: Reason, state: State)
    | RIntent(state: State)
    | RDrop(state: State, expectedAfter: State)
    | RVerify(state: State, expectedAfter: State)
    | RUnverified(after: State)
    | RCheckLedger(before: State, after: State)
    | RLedger(before: State, after: State)
    | RFinal(before: State, after: State)

  datatype Worker =
    | Deploy(d: DeployPc)
    | Rollback(r: RollbackPc)
    | Releasing(result: Result)
    | Done(result: Result)

  /** The program points between acquiring and releasing the target lock. */
  predicate Locked(w: Worker) {
    match w
    case Deploy(pc) => !pc.DLoad? && !pc.DAcquire?
    case Rollback(pc) => !pc.RBound? && !pc.ROutcome? && !pc.RAcquire?
    case Releasing(_) => true
    case Done(_) => false
  }

  /** A worker's step: the shared rows it leaves and where it continues. */
  datatype Next = Next(sh: Shared, w: Worker)

  /** A guarded transaction: the rows it leaves and whether it was accepted. */
  datatype Tx = Tx(sh: Shared, ok: bool)

  // ------------------------------------------------------------ transactions

  /** Insert the artifact row, or keep the one that is there; refused when that row binds another action. */
  function IntentTx(b: Binding, sh: Shared, before: State): Tx {
    match sh.artifact
    case Some(a) => Tx(sh, a.binding == b)
    case None => Tx(sh.(artifact := Some(Artifact(b, IntentRecorded, before, None))), true)
  }

  /** Move the run along one edge of the lifecycle graph, or refuse. */
  function TransitionTx(sh: Shared, next: RunStatus): Tx {
    if ValidTransition(sh.status, next) then Tx(sh.(status := next), true) else Tx(sh, false)
  }

  function RecoveryIntentTx(b: Binding, sh: Shared): Shared {
    if sh.recovery.None? then sh.(recovery := Some(Recovery(b.index, ExecutionIntent))) else sh
  }

  function MarkAppliedTx(sh: Shared, after: State): Shared {
    match sh.artifact
    case Some(a) => sh.(artifact := Some(a.(status := Applied, after := Some(after))))
    case None => sh
  }

  function CreateTx(b: Binding, sh: Shared): Shared {
    sh.(target := Created(sh.target, b.index), creates := sh.creates + 1)
  }

  function DropTx(b: Binding, sh: Shared): Shared {
    sh.(target := Dropped(sh.target, b.index.name), drops := sh.drops + 1)
  }

  /** The rollback row's own rules: a terminal outcome is never replaced. */
  function RecordTx(sh: Shared, record: RollbackRecord): Tx {
    match sh.record
    case None => Tx(sh.(record := Some(record)), true)
    case Some(existing) =>
      if existing.RollbackIntent? && !record.RollbackIntent? then
        Tx(sh.(record := Some(record)), true)
      else
        Tx(sh, SameStatus(existing, record))
  }

  predicate SameStatus(x: RollbackRecord, y: RollbackRecord) {
    || (x.RollbackIntent? && y.RollbackIntent?) || (x.RolledBack? && y.RolledBack?)
    || (x.RollbackBlocked? && y.RollbackBlocked?)
  }

  function Append(sh: Shared, e: Event): Shared {
    sh.(ledger := sh.ledger + [e])
  }

  /** Rows of the rollback or of the applied kind in a ledger. */
  function Rows(ledger: seq<Event>, rollback: bool): nat {
    if ledger == [] then 0 else
      var last := ledger[|ledger| - 1];
      Rows(ledger[..|ledger| - 1], rollback)
      + (if (if rollback then last.RollbackApplied? else last.DeploymentApplied?) then 1 else 0)
  }

  /** Why the observed state may not be rolled back, or `None` when it may. */
  function SafeReason(b: Binding, bound: Bound, s: State): Option<Reason> {
    if bound.candidateFingerprint != b.candidateFingerprint then Some(CandidateFingerprintDrift)
    else if bound.after.None? || b.index != bound.index then Some(ArtifactInvalid)
    else if !s.namespaceExists then Some(NamespaceMismatch)
    else
      var matching := Named(s.indexes, b.index.name);
      if |matching| != 1 || matching[0].keys != b.index.keys then Some(IndexSpecMismatch)
      else if s != bound.after.value then Some(RelevantDrift)
      else None
  }

  // ------------------------------------------------------------ one worker's step

  function Continue(ok: bool, pc: DeployPc): Worker {
    if ok then Deploy(pc) else Releasing(Failed)
  }

  function ExecDeploy(b: Binding, sh: Shared, id: WorkerId, pc: DeployPc): Next {
    match pc
    case DLoad => Next(sh, Deploy(DAcquire(sh.status)))
    case DAcquire(runStatus) =>
      if sh.lock.None? then Next(sh.(lock := Some(id)), Deploy(DReadBefore(runStatus))) else Next(sh, Done(Failed))
    case DReadBefore(runStatus) => Next(sh, Deploy(DIntent(runStatus, View(sh.target))))
    case DIntent(runStatus, before) =>
      var tx := IntentTx(b, sh, before);
      var applied := sh.artifact.Some? && sh.artifact.value.status.Applied?;
      Next(tx.sh, Continue(tx.ok, DBegin(runStatus, before, applied, sh.artifact.None?)))
    case DBegin(runStatus, before, applied, created) =>
      var tx := if runStatus == APPROVED then TransitionTx(sh, DEPLOYING)
                else Tx(sh, runStatus == DEPLOYING || runStatus == DEPLOYED);
      if tx.ok && applied then
        Next(tx.sh, Continue(HasExactIndex(before, b.index), DRecheck))
      else
        Next(tx.sh, Continue(tx.ok, DRecordIntent(before, created)))
    case DRecheck =>
      Next(sh, if sh.status == DEPLOYING then Deploy(DFinish)
               else Releasing(if sh.status == DEPLOYED then Succeeded else Failed))
    case DRecordIntent(before, created) =>
      Next(RecoveryIntentTx(b, sh), Deploy(if created then DLedgerIntent(before) else DExecStart(before)))
    case DLedgerIntent(before) => Next(Append(sh, DeploymentIntent(before)), Deploy(DExecStart(before)))
    case DExecStart(before) => ExecStart(sh, before)
    case DObserve(before, expected) =>
      var done := expected == b.index && HasExactIndex(View(sh.target), b.index);
      Next(sh, Deploy(if done then DConfirm(before) else DCreate(before)))
    case DCreate(before) => Next(CreateTx(b, sh), Deploy(DConfirm(before)))
    case DConfirm(before) => Next(ConfirmTx(sh), Deploy(DReadAfter(before)))
    case DReadAfter(before) =>
      var after := View(sh.target);
      Next(sh, Continue(HasExactIndex(after, b.index), DMark(before, after)))
    case DMark(before, after) => Next(MarkAppliedTx(sh, after), Deploy(DLedgerApplied(before, after)))
    case DLedgerApplied(before, after) => Next(Append(sh, DeploymentApplied(before, after)), Deploy(DReadStatus))
    case DReadStatus => Next(sh, if sh.status == DEPLOYING then Deploy(DFinish) else Releasing(Succeeded))
    case DFinish =>
      var tx := TransitionTx(sh, DEPLOYED);
      Next(tx.sh, Releasing(if tx.ok then Succeeded else Failed))
  }

  /** Start the recorded execution; a confirmed one is not executed again. */
  function ExecStart(sh: Shared, before: State): Next {
    match sh.recovery
    case None => Next(sh, Releasing(Failed))
    case Some(r) =>
      if r.state.ExecutionConfirmed? then Next(sh, Deploy(DReadAfter(before)))
      else Next(sh.(recovery := Some(r.(state := ExecutionStarted))), Deploy(DObserve(before, r.expected)))
  }

  function ConfirmTx(sh: Shared): Shared {
    if sh.recovery.None? then sh else sh.(recovery := Some(sh.recovery.value.(state := ExecutionConfirmed)))
  }

  function ExecRollback(b: Binding, sh: Shared, id: WorkerId, pc: RollbackPc): Next {
    match pc
    case RBound =>
      if sh.artifact.None? then Next(sh, Done(Failed)) else
        var a := sh.artifact.value;
        Next(sh, Rollback(ROutcome(Bound(a.binding.candidateFingerprint, a.binding.index, a.after))))
    case ROutcome(bound) => Next(sh, RecordedOutcome(sh, bound))
    case RAcquire(bound) =>
      if sh.lock.None? then Next(sh.(lock := Some(id)), Rollback(RReadState(bound)))
      else Next(sh, Done(ReportedBlocked(TargetLockUnavailable)))
    case RReadState(bound) => Next(sh, Rollback(RReadRecord(bound, View(sh.target))))
    case RReadRecord(bound, s) =>
      if sh.record.Some? && sh.record.value.RollbackIntent? && s == sh.record.value.expectedAfter then
        Next(sh, Rollback(RCheckLedger(sh.record.value.before, s)))
      else
        var reason := SafeReason(b, bound, s);
        Next(sh, Rollback(if reason.Some? then RBlock(reason.value, s) else RIntent(s)))
    case RBlock(reason, s) =>
      var tx := RecordTx(sh, RollbackBlocked(reason, s));
      Next(tx.sh, Releasing(if tx.ok then ReportedBlocked(reason) else Failed))
    case RIntent(s) =>
      var expectedAfter := WithoutOwnedIndex(s, b.index.name);
      var tx := RecordTx(sh, RollbackIntent(s, expectedAfter));
      Next(tx.sh, if tx.ok then Rollback(RDrop(s, expectedAfter)) else Releasing(Failed))
    case RDrop(s, expectedAfter) => Next(DropTx(b, sh), Rollback(RVerify(s, expectedAfter)))
    case RVerify(s, expectedAfter) =>
      var after := View(sh.target);
      Next(sh, Rollback(if after == expectedAfter then RCheckLedger(s, after) else RUnverified(after)))
    case RUnverified(after) =>
      var tx := RecordTx(sh, RollbackBlocked(InverseUnverified, after));
      Next(tx.sh, Releasing(if tx.ok then ReportedBlocked(InverseUnverified) else Failed))
    case RCheckLedger(before, after) =>
      Next(sh, Rollback(if Rows(sh.ledger, true) > 0 then RFinal(before, after) else RLedger(before, after)))
    case RLedger(before, after) => Next(Append(sh, RollbackApplied(before, after)), Rollback(RFinal(before, after)))
    case RFinal(before, after) =>
      var tx := RecordTx(sh, RolledBack(before, after));
      Next(tx.sh, Releasing(if tx.ok then ReportedRolledBack else Failed))
  }

  /** A terminal rollback row is reported as it stands; otherwise the rollback goes on. */
  function RecordedOutcome(sh: Shared, bound: Bound): Worker {
    match sh.record
    case Some(RolledBack(_, _)) => Done(ReportedRolledBack)
    case Some(RollbackBlocked(reason, _)) => Done(ReportedBlocked(reason))
    case _ => Rollback(RAcquire(bound))
  }

  /** The next step of worker `id` at `w`. */
  function Exec(b: Binding, sh: Shared, id: WorkerId, w: Worker): Next {
    match w
    case Deploy(pc) => ExecDeploy(b, sh, id, pc)
    case Rollback(pc) => ExecRollback(b, sh, id, pc)
    case Releasing(result) => Next(sh.(lock := None), Done(result))
    case Done(_) => Next(sh, w)
  }

  function DeployRank(pc: DeployPc): nat {
    match pc
    case DLoad => 20 case DAcquire(_) => 19 case DReadBefore(_) => 18 case DIntent(_, _) => 17
    case DBegin(_, _, _, _) => 16 case DRecordIntent(_, _) => 15 case DLedgerIntent(_) => 14
    case DExecStart(_) => 13 case DObserve(_, _) => 12 case DCreate(_) => 11 case DConfirm(_) => 10
    case DReadAfter(_) => 9 case DMark(_, _) => 8 case DLedgerApplied(_, _) => 7 case DReadStatus => 6
    case DRecheck => 5 case DFinish => 4
  }

  function RollbackRank(pc: RollbackPc): nat {
    match pc
    case RBound => 20 case ROutcome(_) => 19 case RAcquire(_) => 18 case RReadState(_) => 17
    case RReadRecord(_, _) => 16 case RBlock(_, _) => 2 case RIntent(_) => 15 case RDrop(_, _) => 14
    case RVerify(_, _) => 13 case RUnverified(_) => 2 case RCheckLedger(_, _) => 12 case RLedger(_, _) => 11
    case RFinal(_, _) => 10
  }

  /** More than the steps a worker has left. */
  function Rank(w: Worker): nat {
    match w
    case Deploy(pc) => DeployRank(pc)
    case Rollback(pc) => RollbackRank(pc)
    case Releasing(_) => 1
    case Done(_) => 0
  }

  lemma DeployDescends(b: Binding, sh: Shared, id: WorkerId, pc: DeployPc)
    ensures Rank(ExecDeploy(b, sh, id, pc).w) < DeployRank(pc)
  {
    hide View, HasExactIndex;
    match pc
    case DLoad =>
    case DAcquire(_) =>
    case DReadBefore(_) =>
    case DIntent(_, _) =>
    case DBegin(_, _, _, _) =>
    case DExecStart(_) =>
    case DObserve(_, _) =>
    case DReadAfter(_) =>
    case _ =>
  }

  lemma RollbackDescends(b: Binding, sh: Shared, id: WorkerId, pc: RollbackPc)
    ensures Rank(ExecRollback(b, sh, id, pc).w) < RollbackRank(pc)
  {
  }

  lemma ExecDescends(b: Binding, sh: Shared, id: WorkerId, w: Worker)
    requires !w.Done?
    ensures Rank(Exec(b, sh, id, w).w) < Rank(w)
  {
    match w
    case Deploy(pc) => DeployDescends(b, sh, id, pc);
    case Rollback(pc) => RollbackDescends(b, sh, id, pc);
    case Releasing(_) =>
  }

  /** An uninterrupted call: worker `id` runs from `w` to the end with nobody in between. */
  function Solo(b: Binding, sh: Shared, id: WorkerId, w: Worker): Next
    decreases Rank(w)
  {
    if w.Done? then Next(sh, w) else
      ExecDescends(b, sh, id, w);
      var next := Exec(b, sh, id, w);
      Solo(b, next.sh, id, next.w)
  }

  // ------------------------------------------------------------ the system

  datatype System = System(shared: Shared, workers: map<WorkerId, Worker>)

  datatype Label =
    | StartDeploy(w: WorkerId)
    | StartRollback(w: WorkerId)
    | Step(w: WorkerId)
    /** An exception: a lost lease, a refused gate, a failed statement.  `finally` still releases. */
    | Abort(w: WorkerId)
    /** The process dies; the session lock goes with it. */
    | Crash(w: WorkerId)
    /** Some other stage moves the run along the lifecycle graph. */
    | Advance(next: RunStatus)
    /** Somebody outside the optimizer changes the collection. */
    | Outside(target: Namespace)

  predicate Idle(s: System, w: WorkerId) {
    w !in s.workers || s.workers[w].Done?
  }

  function Interrupted(w: Worker): Worker {
    match w
    case Releasing(_) => w
    case Done(_) => w
    case _ => if Locked(w) then Releasing(Failed) else Done(Failed)
  }

  function Unlocked(sh: Shared, w: WorkerId): Shared {
    if sh.lock == Some(w) then sh.(lock := None) else sh
  }

  /** One step of the system; a label that is not enabled changes nothing. */
  function Apply(b: Binding, s: System, l: Label): System {
    match l
    case StartDeploy(w) => if Idle(s, w) then s.(workers := s.workers[w := Deploy(DLoad)]) else s
    case StartRollback(w) => if Idle(s, w) then s.(workers := s.workers[w := Rollback(RBound)]) else s
    case Step(w) =>
      if Idle(s, w) then s else
        var next := Exec(b, s.shared, w, s.workers[w]);
        System(next.sh, s.workers[w := next.w])
    case Abort(w) => if Idle(s, w) then s else s.(workers := s.workers[w := Interrupted(s.workers[w])])
    case Crash(w) => System(Unlocked(s.shared, w), s.workers - {w})
    case Advance(next) =>
      if ValidTransition(s.shared.status, next) && next != DEPLOYING && next != DEPLOYED
      then s.(shared := s.shared.(status := next)) else s
    case Outside(t) => s.(shared := s.shared.(target := t))
  }

  function Run(b: Binding, s: System, ls: seq<Label>): System
    decreases |ls|
  {
    if ls == [] then s else Run(b, Apply(b, s, ls[0]), ls[1..])
  }

  /** Nobody outside the optimizer touches the collection. */
  predicate Quiet(ls: seq<Label>) {
    forall l :: l in ls ==> !l.Outside?
  }

  /** An approved run before its first deployment attempt. */
  function Fresh(t0: Namespace): Shared {
    Shared(t0, APPROVED, None, None, None, [], None, 0, 0)
  }

  function Initial(t0: Namespace): System {
    System(Fresh(t0), map[])
  }
}
