/** What every interleaving keeps when nobody outside the optimizer touches the collection:
    the target is always one of three states, and the rows say which. */
module SettledInvariant {
  import opened Catalog
  import opened Lifecycle
  import opened DeployProtocol
  import opened DeployInvariant

  /** The collection with the action's index, and that collection after dropping it. */
  function Full(b: Binding, t0: Namespace): Namespace {
    Created(t0, b.index)
  }

  function Bare(b: Binding, t0: Namespace): Namespace {
    Dropped(Full(b, t0), b.index.name)
  }

  predicate Exact(b: Binding, t: Namespace) {
    t.Present? && b.index.name in t.indexes && t.indexes[b.index.name] == b.index.keys
  }

  /** Before the artifact is APPLIED: at most one creation, none if the exact index was there. */
  ghost predicate IntentPhase(b: Binding, t0: Namespace, sh: Shared) {
    && sh.drops == 0
    && sh.creates <= 1
    && sh.target == (if sh.creates == 0 then t0 else Full(b, t0))
    && (sh.creates == 1 ==> !Exact(b, t0) && sh.recovery.Some?)
    && (sh.recovery.Some? && sh.recovery.value.state.ExecutionConfirmed? ==> Exact(b, sh.target))
  }

  ghost predicate AppliedPhase(b: Binding, t0: Namespace, sh: Shared) {
    && sh.artifact.Some? && sh.artifact.value.after == Some(View(Full(b, t0)))
    && sh.creates == (if Exact(b, t0) then 0 else 1)
    && sh.drops <= 1
    && sh.target == (if sh.drops == 0 then Full(b, t0) else Bare(b, t0))
    && (sh.drops == 1 ==> HasIntentRecord(sh) || HasRolledBackRecord(sh))
    && (HasIntentRecord(sh) ==> sh.record.value == RollbackIntent(View(Full(b, t0)), View(Bare(b, t0))))
    && (HasRolledBackRecord(sh) ==>
          && sh.drops == 1
          && sh.record.value == RolledBack(View(Full(b, t0)), View(Bare(b, t0))))
  }

  ghost predicate HonestLedger(b: Binding, t0: Namespace, ledger: seq<Event>) {
    && (forall e :: e in ledger && e.DeploymentApplied? ==> e.after == View(Full(b, t0)))
    && (forall e :: e in ledger && e.RollbackApplied? ==> e == RollbackApplied(View(Full(b, t0)), View(Bare(b, t0))))
  }

  ghost predicate Settled(b: Binding, t0: Namespace, sh: Shared) {
    && HonestLedger(b, t0, sh.ledger)
    && (sh.artifact.Some? ==> sh.artifact.value.before == View(t0))
    && (sh.artifact.None? ==> sh.target == t0 && sh.creates == 0 && sh.drops == 0)
    && (sh.artifact.Some? && !IsApplied(sh) ==> IntentPhase(b, t0, sh))
    && (IsApplied(sh) ==> AppliedPhase(b, t0, sh))
  }

  ghost predicate DeploySettled(b: Binding, t0: Namespace, sh: Shared, pc: DeployPc) {
    match pc
    case DIntent(_, before) => before == View(sh.target)
    case DBegin(_, before, _, _) => before == View(sh.target)
    case DRecheck => sh.drops == 0
    case DCreate(_) => !Exact(b, sh.target)
    case DConfirm(_) => Exact(b, sh.target)
    case DReadAfter(_) => Exact(b, sh.target)
    case DMark(_, after) => after == View(sh.target) && Exact(b, sh.target)
    case DLedgerApplied(_, after) => after == View(Full(b, t0)) && sh.drops == 0
    case DReadStatus => sh.drops == 0
    case DFinish => sh.drops == 0
    case _ => true
  }

  ghost predicate UndoPair(b: Binding, t0: Namespace, before: State, after: State) {
    before == View(Full(b, t0)) && after == View(Bare(b, t0))
  }

  ghost predicate RollbackSettled(b: Binding, t0: Namespace, sh: Shared, pc: RollbackPc) {
    match pc
    case RReadRecord(_, s) => s == View(sh.target)
    case RBlock(_, _) => !HasRolledBackRecord(sh) ==> sh.drops == 0
    case RIntent(s) => sh.drops == 0 && s == View(Full(b, t0))
    case RDrop(s, e) => sh.drops == 0 && UndoPair(b, t0, s, e)
    case RVerify(s, e) => sh.drops == 1 && UndoPair(b, t0, s, e)
    case RUnverified(_) => false
    case RCheckLedger(s, e) => sh.drops == 1 && UndoPair(b, t0, s, e)
    case RLedger(s, e) => sh.drops == 1 && UndoPair(b, t0, s, e)
    case RFinal(s, e) => sh.drops == 1 && UndoPair(b, t0, s, e)
    case _ => true
  }

  /** While it still holds the lock, a successful deployment's index is in place. */
  ghost predicate LocalSettled(b: Binding, t0: Namespace, sh: Shared, w: Worker) {
    match w
    case Deploy(pc) => DeploySettled(b, t0, sh, pc)
    case Rollback(pc) => RollbackSettled(b, t0, sh, pc)
    case Releasing(result) => result.Succeeded? ==> sh.drops == 0
    case Done(_) => true
  }

  ghost predicate SettledStep(b: Binding, t0: Namespace, next: Next) {
    Settled(b, t0, next.sh) && LocalSettled(b, t0, next.sh, next.w)
  }

  /** Once the exact index is observed, the target is the full collection. */
  lemma ExactTargetIsFull(b: Binding, t0: Namespace, sh: Shared)
    requires IntentPhase(b, t0, sh) && Exact(b, sh.target)
    ensures sh.target == Full(b, t0)
    ensures sh.creates == if Exact(b, t0) then 0 else 1
  {
    if sh.creates == 0 {
      assert t0.indexes[b.index.name := b.index.keys] == t0.indexes;
    }
  }

  lemma FullBareDiffer(b: Binding, t0: Namespace)
    ensures View(Full(b, t0)) != View(Bare(b, t0))
  {
    hide View;
    ViewInjective(Full(b, t0), Bare(b, t0));
    assert b.index.name in Full(b, t0).indexes && b.index.name !in Bare(b, t0).indexes;
  }

  /** What the observation tells the rollback: already dropped, not droppable, or droppable now. */
  lemma ReadRecordFacts(b: Binding, t0: Namespace, sh: Shared, bound: Bound, s: State)
    requires Durable(b, sh) && Settled(b, t0, sh) && BoundOk(b, sh, bound) && s == View(sh.target)
    ensures HasIntentRecord(sh) && s == sh.record.value.expectedAfter ==> sh.drops == 1
    ensures !(HasIntentRecord(sh) && s == sh.record.value.expectedAfter) && !HasRolledBackRecord(sh) ==> sh.drops == 0
    ensures SafeReason(b, bound, s).None? ==> sh.drops == 0 && s == View(Full(b, t0))
  {
    hide View, Named;
    FullBareDiffer(b, t0);
    ViewInjective(sh.target, Full(b, t0));
  }

  /** Of the rows' consistency, what these steps rely on. */
  lemma RowFacts(b: Binding, sh: Shared)
    requires Durable(b, sh)
    ensures sh.recovery.Some? || sh.record.Some? ==> sh.artifact.Some?
    ensures HasIntentRecord(sh) || HasRolledBackRecord(sh) || sh.drops > 0 ==> IsApplied(sh)
    ensures sh.artifact.Some? ==> sh.artifact.value.binding == b
  {
  }

  /** The run's status and the lock are not part of the relation. */
  lemma StatusFrame(b: Binding, t0: Namespace, sh: Shared, sh': Shared)
    requires Settled(b, t0, sh) && sh' == sh.(status := sh'.status, lock := sh'.lock)
    ensures Settled(b, t0, sh')
  {
  }

  lemma RecoveryFrame(b: Binding, t0: Namespace, sh: Shared, sh': Shared)
    requires Settled(b, t0, sh) && !IsApplied(sh) && sh.recovery.Some?
    requires sh' == sh.(recovery := sh'.recovery) && sh'.recovery.Some?
    requires sh'.recovery.value.state.ExecutionConfirmed? ==> Exact(b, sh.target)
    ensures Settled(b, t0, sh')
  {
  }

  lemma UndroppedWhileExact(b: Binding, t0: Namespace, sh: Shared)
    requires Settled(b, t0, sh) && Exact(b, sh.target)
    ensures sh.drops == 0
  {
  }

  lemma SettledEntry(b: Binding, t0: Namespace, sh: Shared, id: WorkerId, pc: DeployPc)
    requires Durable(b, sh) && Settled(b, t0, sh) && DeployLocal(b, sh, pc) && DeploySettled(b, t0, sh, pc)
    requires (pc.DLoad? || pc.DAcquire? || pc.DReadBefore?)
    ensures SettledStep(b, t0, ExecDeploy(b, sh, id, pc))
  {
    hide Durable, View, HasExactIndex, Rows, WithoutOwnedIndex;
    StatusFrame(b, t0, sh, ExecDeploy(b, sh, id, pc).sh);
    hide Settled;
    match pc
    case DLoad =>
    case DAcquire(_) =>
    case DReadBefore(_) =>
  }

  lemma SettledIntent(b: Binding, t0: Namespace, sh: Shared, id: WorkerId, pc: DeployPc)
    requires Durable(b, sh) && Settled(b, t0, sh) && DeployLocal(b, sh, pc) && DeploySettled(b, t0, sh, pc)
    requires (pc.DIntent? || pc.DRecordIntent?)
    requires sh.lock == Some(id)
    ensures SettledStep(b, t0, ExecDeploy(b, sh, id, pc))
  {
    hide Durable, View, HasExactIndex, Rows, WithoutOwnedIndex;
    RowFacts(b, sh);
    match pc
    case DIntent(_, _) =>
    case DRecordIntent(_, _) =>
  }

  lemma SettledBegin(b: Binding, t0: Namespace, sh: Shared, id: WorkerId, pc: DeployPc)
    requires Durable(b, sh) && Settled(b, t0, sh) && DeployLocal(b, sh, pc) && DeploySettled(b, t0, sh, pc)
    requires (pc.DBegin?)
    requires sh.lock == Some(id)
    ensures SettledStep(b, t0, ExecDeploy(b, sh, id, pc))
  {
    hide Durable, View, HasExactIndex, Rows, WithoutOwnedIndex;
    StatusFrame(b, t0, sh, ExecDeploy(b, sh, id, pc).sh);
    HasExactView(sh.target, b.index);
    if Exact(b, sh.target) {
      UndroppedWhileExact(b, t0, sh);
    }
    hide Settled, ValidTransition;
  }

  lemma SettledExecute(b: Binding, t0: Namespace, sh: Shared, id: WorkerId, pc: DeployPc)
    requires Durable(b, sh) && Settled(b, t0, sh) && DeployLocal(b, sh, pc) && DeploySettled(b, t0, sh, pc)
    requires (pc.DExecStart?)
    requires sh.lock == Some(id)
    ensures SettledStep(b, t0, ExecDeploy(b, sh, id, pc))
  {
    hide Durable, View, HasExactIndex, Rows, WithoutOwnedIndex;
    RowFacts(b, sh);
    if sh.recovery.Some? {
      RecoveryFrame(b, t0, sh, ExecDeploy(b, sh, id, pc).sh);
      assert sh.recovery.value.state.ExecutionConfirmed? ==> Exact(b, sh.target);
    }
    hide Settled;
  }

  lemma SettledObserve(b: Binding, t0: Namespace, sh: Shared, id: WorkerId, pc: DeployPc)
    requires Durable(b, sh) && Settled(b, t0, sh) && DeployLocal(b, sh, pc) && DeploySettled(b, t0, sh, pc)
    requires (pc.DObserve?)
    requires sh.lock == Some(id)
    ensures SettledStep(b, t0, ExecDeploy(b, sh, id, pc))
  {
    hide Durable, View, HasExactIndex, Rows, WithoutOwnedIndex;
    match pc
    case DObserve(_, _) =>
      HasExactView(sh.target, b.index);
  }

  lemma SettledCreate(b: Binding, t0: Namespace, sh: Shared, id: WorkerId, pc: DeployPc)
    requires Durable(b, sh) && Settled(b, t0, sh) && DeployLocal(b, sh, pc) && DeploySettled(b, t0, sh, pc)
    requires (pc.DCreate? || pc.DConfirm?)
    requires sh.lock == Some(id)
    ensures SettledStep(b, t0, ExecDeploy(b, sh, id, pc))
  {
    hide Durable, View, HasExactIndex, Rows, WithoutOwnedIndex;
    match pc
    case DCreate(_) =>
    case DConfirm(_) =>
  }

  lemma SettledMark(b: Binding, t0: Namespace, sh: Shared, id: WorkerId, pc: DeployPc)
    requires Durable(b, sh) && Settled(b, t0, sh) && DeployLocal(b, sh, pc) && DeploySettled(b, t0, sh, pc)
    requires (pc.DReadAfter? || pc.DMark?)
    requires sh.lock == Some(id)
    ensures SettledStep(b, t0, ExecDeploy(b, sh, id, pc))
  {
    hide Durable, View, HasExactIndex, Rows, WithoutOwnedIndex;
    RowFacts(b, sh);
    match pc
    case DReadAfter(_) =>
      HasExactView(sh.target, b.index);
      hide Settled;
    case DMark(_, _) =>
      ExactTargetIsFull(b, t0, sh);
  }

  lemma SettledAppend(b: Binding, t0: Namespace, sh: Shared, id: WorkerId, pc: DeployPc)
    requires Durable(b, sh) && Settled(b, t0, sh) && DeployLocal(b, sh, pc) && DeploySettled(b, t0, sh, pc)
    requires (pc.DLedgerIntent? || pc.DLedgerApplied?)
    requires sh.lock == Some(id)
    ensures SettledStep(b, t0, ExecDeploy(b, sh, id, pc))
  {
    hide Durable, View, HasExactIndex, Rows, WithoutOwnedIndex;
    match pc
    case DLedgerIntent(_) =>
    case DLedgerApplied(_, _) =>
  }

  lemma SettledFinish(b: Binding, t0: Namespace, sh: Shared, id: WorkerId, pc: DeployPc)
    requires Durable(b, sh) && Settled(b, t0, sh) && DeployLocal(b, sh, pc) && DeploySettled(b, t0, sh, pc)
    requires (pc.DReadStatus? || pc.DRecheck? || pc.DFinish?)
    requires sh.lock == Some(id)
    ensures SettledStep(b, t0, ExecDeploy(b, sh, id, pc))
  {
    hide Durable, View, HasExactIndex, Rows, WithoutOwnedIndex;
    StatusFrame(b, t0, sh, ExecDeploy(b, sh, id, pc).sh);
    hide Settled, ValidTransition;
    match pc
    case DReadStatus =>
    case DRecheck =>
    case DFinish =>
  }

  lemma SettledDeployStep(b: Binding, t0: Namespace, sh: Shared, id: WorkerId, pc: DeployPc)
    requires Durable(b, sh) && Settled(b, t0, sh) && DeployLocal(b, sh, pc) && DeploySettled(b, t0, sh, pc)
    requires Locked(Deploy(pc)) ==> sh.lock == Some(id)
    ensures SettledStep(b, t0, ExecDeploy(b, sh, id, pc))
  {
    if pc.DLoad? || pc.DAcquire? || pc.DReadBefore? { SettledEntry(b, t0, sh, id, pc); }
    else if pc.DIntent? || pc.DRecordIntent? { SettledIntent(b, t0, sh, id, pc); }
    else if pc.DBegin? { SettledBegin(b, t0, sh, id, pc); }
    else if pc.DExecStart? { SettledExecute(b, t0, sh, id, pc); }
    else if pc.DObserve? { SettledObserve(b, t0, sh, id, pc); }
    else if pc.DCreate? || pc.DConfirm? { SettledCreate(b, t0, sh, id, pc); }
    else if pc.DReadAfter? || pc.DMark? { SettledMark(b, t0, sh, id, pc); }
    else if pc.DLedgerIntent? || pc.DLedgerApplied? { SettledAppend(b, t0, sh, id, pc); }
    else { SettledFinish(b, t0, sh, id, pc); }
  }

  lemma SettledBound(b: Binding, t0: Namespace, sh: Shared, id: WorkerId, pc: RollbackPc)
    requires Durable(b, sh) && Settled(b, t0, sh) && RollbackLocal(b, sh, pc) && RollbackSettled(b, t0, sh, pc)
    requires (pc.RBound? || pc.ROutcome? || pc.RAcquire?)
    ensures SettledStep(b, t0, ExecRollback(b, sh, id, pc))
  {
    hide Durable, View, HasExactIndex, Rows, WithoutOwnedIndex;
    StatusFrame(b, t0, sh, ExecRollback(b, sh, id, pc).sh);
    hide Settled;
    match pc
    case RBound =>
    case ROutcome(_) =>
    case RAcquire(_) =>
  }

  lemma SettledRead(b: Binding, t0: Namespace, sh: Shared, id: WorkerId, pc: RollbackPc)
    requires Durable(b, sh) && Settled(b, t0, sh) && RollbackLocal(b, sh, pc) && RollbackSettled(b, t0, sh, pc)
    requires (pc.RReadState? || pc.RReadRecord?)
    requires sh.lock == Some(id)
    ensures SettledStep(b, t0, ExecRollback(b, sh, id, pc))
  {
    hide Durable, View, HasExactIndex, Rows, WithoutOwnedIndex;
    RowFacts(b, sh);
    StatusFrame(b, t0, sh, ExecRollback(b, sh, id, pc).sh);
    match pc
    case RReadState(_) =>
    case RReadRecord(bound, s) =>
      ReadRecordFacts(b, t0, sh, bound, s);
      assert HasIntentRecord(sh) ==> UndoPair(b, t0, sh.record.value.before, sh.record.value.expectedAfter);
      hide Settled, SafeReason, UndoPair;
  }

  lemma SettledBlock(b: Binding, t0: Namespace, sh: Shared, id: WorkerId, pc: RollbackPc)
    requires Durable(b, sh) && Settled(b, t0, sh) && RollbackLocal(b, sh, pc) && RollbackSettled(b, t0, sh, pc)
    requires (pc.RBlock? || pc.RUnverified?)
    requires sh.lock == Some(id)
    ensures SettledStep(b, t0, ExecRollback(b, sh, id, pc))
  {
    hide Durable, View, HasExactIndex, Rows, WithoutOwnedIndex;
    match pc
    case RBlock(_, _) =>
    case RUnverified(_) =>
  }

  lemma SettledRecordIntent(b: Binding, t0: Namespace, sh: Shared, id: WorkerId, pc: RollbackPc)
    requires Durable(b, sh) && Settled(b, t0, sh) && RollbackLocal(b, sh, pc) && RollbackSettled(b, t0, sh, pc)
    requires pc.RIntent? && sh.lock == Some(id)
    ensures SettledStep(b, t0, ExecRollback(b, sh, id, pc))
  {
    hide Durable, View, HasExactIndex, Rows, WithoutOwnedIndex;
    RowFacts(b, sh);
    WithoutView(Full(b, t0), b.index.name);
  }

  lemma SettledDrop(b: Binding, t0: Namespace, sh: Shared, id: WorkerId, pc: RollbackPc)
    requires Durable(b, sh) && Settled(b, t0, sh) && RollbackLocal(b, sh, pc) && RollbackSettled(b, t0, sh, pc)
    requires pc.RDrop? && sh.lock == Some(id)
    ensures SettledStep(b, t0, ExecRollback(b, sh, id, pc))
  {
    hide Durable, View, HasExactIndex, Rows, WithoutOwnedIndex;
    RowFacts(b, sh);
  }

  lemma SettledVerify(b: Binding, t0: Namespace, sh: Shared, id: WorkerId, pc: RollbackPc)
    requires Durable(b, sh) && Settled(b, t0, sh) && RollbackLocal(b, sh, pc) && RollbackSettled(b, t0, sh, pc)
    requires (pc.RVerify? || pc.RCheckLedger?)
    requires sh.lock == Some(id)
    ensures SettledStep(b, t0, ExecRollback(b, sh, id, pc))
  {
    hide Durable, View, HasExactIndex, Rows, WithoutOwnedIndex;
    StatusFrame(b, t0, sh, ExecRollback(b, sh, id, pc).sh);
    assert IsApplied(sh) && sh.drops == 1 ==> sh.target == Bare(b, t0);
    assert HasIntentRecord(sh) ==> IsApplied(sh);
    hide Settled, Bare;
    match pc
    case RVerify(_, _) =>
    case RCheckLedger(_, _) =>
  }

  lemma SettledLedger(b: Binding, t0: Namespace, sh: Shared, id: WorkerId, pc: RollbackPc)
    requires Durable(b, sh) && Settled(b, t0, sh) && RollbackLocal(b, sh, pc) && RollbackSettled(b, t0, sh, pc)
    requires (pc.RLedger?)
    requires sh.lock == Some(id)
    ensures SettledStep(b, t0, ExecRollback(b, sh, id, pc))
  {
    hide Durable, View, HasExactIndex, Rows, WithoutOwnedIndex;
    match pc
    case RLedger(_, _) =>
  }

  lemma SettledFinal(b: Binding, t0: Namespace, sh: Shared, id: WorkerId, pc: RollbackPc)
    requires Durable(b, sh) && Settled(b, t0, sh) && RollbackLocal(b, sh, pc) && RollbackSettled(b, t0, sh, pc)
    requires (pc.RFinal?)
    requires sh.lock == Some(id)
    ensures SettledStep(b, t0, ExecRollback(b, sh, id, pc))
  {
    hide Durable, View, HasExactIndex, Rows, WithoutOwnedIndex;
    match pc
    case RFinal(_, _) =>
  }

  lemma SettledRollbackStep(b: Binding, t0: Namespace, sh: Shared, id: WorkerId, pc: RollbackPc)
    requires Durable(b, sh) && Settled(b, t0, sh) && RollbackLocal(b, sh, pc) && RollbackSettled(b, t0, sh, pc)
    requires Locked(Rollback(pc)) ==> sh.lock == Some(id)
    ensures SettledStep(b, t0, ExecRollback(b, sh, id, pc))
  {
    if pc.RBound? || pc.ROutcome? || pc.RAcquire? { SettledBound(b, t0, sh, id, pc); }
    else if pc.RReadState? || pc.RReadRecord? { SettledRead(b, t0, sh, id, pc); }
    else if pc.RBlock? || pc.RUnverified? { SettledBlock(b, t0, sh, id, pc); }
    else if pc.RIntent? { SettledRecordIntent(b, t0, sh, id, pc); }
    else if pc.RDrop? { SettledDrop(b, t0, sh, id, pc); }
    else if pc.RVerify? || pc.RCheckLedger? { SettledVerify(b, t0, sh, id, pc); }
    else if pc.RLedger? { SettledLedger(b, t0, sh, id, pc); }
    else { SettledFinal(b, t0, sh, id, pc); }
  }
}
