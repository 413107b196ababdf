/** What every interleaving of deploying and rolling-back workers keeps: with crashes,
    exceptions and outside writers (`Durable`), and without outside writers (`Settled`). */
module DeployInvariant {
  import opened Catalog
  import opened Lifecycle
  import opened DeployProtocol

  ghost predicate IsApplied(sh: Shared) {
    sh.artifact.Some? && sh.artifact.value.status.Applied?
  }

  ghost predicate HasIntentRecord(sh: Shared) {
    sh.record.Some? && sh.record.value.RollbackIntent?
  }

  ghost predicate HasRolledBackRecord(sh: Shared) {
    sh.record.Some? && sh.record.value.RolledBack?
  }

  /** The recovery row of a finished execution. */
  ghost predicate Confirmed(b: Binding, sh: Shared) {
    sh.recovery == Some(Recovery(b.index, ExecutionConfirmed))
  }

  /** The recovery row of an execution under way. */
  ghost predicate Executing(b: Binding, sh: Shared) {
    sh.recovery == Some(Recovery(b.index, ExecutionStarted))
  }

  /** The rows are consistent with each other, whatever happens to the target. */
  ghost predicate Durable(b: Binding, sh: Shared) {
    && ApprovedOrLater(sh.status)
    && (sh.status == APPROVED ==> sh.recovery.None? && !IsApplied(sh))
    && (DeployedOrLater(sh.status) ==> IsApplied(sh))
    && (sh.artifact.Some? ==>
          && sh.artifact.value.binding == b
          && (sh.artifact.value.status.Applied? <==> sh.artifact.value.after.Some?))
    && (sh.recovery.Some? ==> sh.artifact.Some? && sh.recovery.value.expected == b.index)
    && (IsApplied(sh) ==> Confirmed(b, sh))
    && (sh.record.Some? ==> sh.artifact.Some?)
    && (HasIntentRecord(sh) || HasRolledBackRecord(sh) || sh.drops > 0 ==> IsApplied(sh))
    && Rows(sh.ledger, true) <= 1
    && (HasRolledBackRecord(sh) ==> Rows(sh.ledger, true) == 1)
    && Rows(sh.ledger, false) <= 1
    && (Rows(sh.ledger, false) > 0 ==> IsApplied(sh))
  }

  /** What a rollback loaded before taking the lock may be stale but never wrong. */
  ghost predicate BoundOk(b: Binding, sh: Shared, bound: Bound) {
    && sh.artifact.Some?
    && bound.index == b.index
    && bound.candidateFingerprint == b.candidateFingerprint
    && (bound.after.Some? ==> IsApplied(sh) && sh.artifact.value.after == bound.after)
  }

  ghost predicate Underway(sh: Shared) {
    sh.artifact.Some? && !IsApplied(sh) && sh.status != APPROVED
  }

  ghost predicate DeployLocal(b: Binding, sh: Shared, pc: DeployPc) {
    match pc
    case DLoad => true
    case DAcquire(st) => st != APPROVED ==> sh.status != APPROVED
    case DReadBefore(st) => st != APPROVED ==> sh.status != APPROVED
    case DIntent(st, before) => st != APPROVED ==> sh.status != APPROVED
    case DBegin(st, before, applied, created) =>
      && (st != APPROVED ==> sh.status != APPROVED)
      && sh.artifact.Some? && (applied <==> IsApplied(sh))
    case DRecheck => IsApplied(sh)
    case DRecordIntent(_, _) => Underway(sh)
    case DLedgerIntent(_) => Underway(sh)
    case DExecStart(_) => Underway(sh)
    case DObserve(_, expected) => Underway(sh) && Executing(b, sh) && expected == b.index
    case DCreate(_) => Underway(sh) && Executing(b, sh)
    case DConfirm(_) => Underway(sh) && Executing(b, sh)
    case DReadAfter(_) => Underway(sh) && Confirmed(b, sh)
    case DMark(_, _) => Underway(sh) && Confirmed(b, sh)
    case DLedgerApplied(_, _) => IsApplied(sh) && Rows(sh.ledger, false) == 0
    case DReadStatus => IsApplied(sh)
    case DFinish => IsApplied(sh)
  }

  ghost predicate RollbackLocal(b: Binding, sh: Shared, pc: RollbackPc) {
    match pc
    case RBound => true
    case ROutcome(bound) => BoundOk(b, sh, bound)
    case RAcquire(bound) => BoundOk(b, sh, bound)
    case RReadState(bound) => BoundOk(b, sh, bound)
    case RReadRecord(bound, s) => BoundOk(b, sh, bound)
    case RBlock(_, _) => sh.artifact.Some?
    case RIntent(_) => IsApplied(sh)
    case RDrop(s, e) => HasIntentRecord(sh)
    case RVerify(s, e) => HasIntentRecord(sh)
    case RUnverified(_) => HasIntentRecord(sh)
    case RCheckLedger(_, _) => HasIntentRecord(sh)
    case RLedger(_, _) => HasIntentRecord(sh) && Rows(sh.ledger, true) == 0
    case RFinal(_, _) => HasIntentRecord(sh) && Rows(sh.ledger, true) == 1
  }

  /** What a call's result tells its caller. */
  ghost predicate Truthful(sh: Shared, result: Result) {
    match result
    case Succeeded => IsApplied(sh)
    case Failed => true
    case ReportedRolledBack => HasRolledBackRecord(sh)
    case ReportedBlocked(reason) =>
      reason == TargetLockUnavailable || (sh.record.Some? && sh.record.value.RollbackBlocked?)
  }

  ghost predicate Local(b: Binding, sh: Shared, w: Worker) {
    match w
    case Deploy(pc) => DeployLocal(b, sh, pc)
    case Rollback(pc) => RollbackLocal(b, sh, pc)
    case Releasing(result) => Truthful(sh, result)
    case Done(result) => Truthful(sh, result)
  }

  /** What no step ever takes back. */
  ghost predicate Later(sh: Shared, sh': Shared) {
    && (sh.artifact.Some? ==>
          && sh'.artifact.Some?
          && sh'.artifact.value.before == sh.artifact.value.before
          && sh'.artifact.value.binding == sh.artifact.value.binding)
    && (IsApplied(sh) ==> sh'.artifact == sh.artifact)
    && (sh.record.Some? && !sh.record.value.RollbackIntent? ==> sh'.record == sh.record)
    && (sh.status != APPROVED ==> sh'.status != APPROVED)
    && sh.ledger <= sh'.ledger
    && sh.creates <= sh'.creates
    && sh.drops <= sh'.drops
  }

  lemma LaterTransitive(x: Shared, y: Shared, z: Shared)
    requires Later(x, y) && Later(y, z)
    ensures Later(x, z)
  {
  }

  lemma {:induction false} RowsAppend(ledger: seq<Event>, e: Event, rollback: bool)
    ensures Rows(ledger + [e], rollback)
            == Rows(ledger, rollback)
               + (if (if rollback then e.RollbackApplied? else e.DeploymentApplied?) then 1 else 0)
  {
    assert (ledger + [e])[..|ledger|] == ledger;
  }

  /** The effect of one worker step on the rows and on the lock. */
  ghost predicate GoodStep(b: Binding, sh: Shared, id: WorkerId, w: Worker, next: Next) {
    && Durable(b, next.sh)
    && Local(b, next.sh, next.w)
    && Later(sh, next.sh)
    && next.sh.lock == (if Locked(next.w) then Some(id) else sh.lock)
    && (Locked(w) ==> Locked(next.w))
    && (!Locked(w) ==> next.sh == sh.(lock := next.sh.lock))
    && (!Locked(w) && Locked(next.w) ==> sh.lock.None?)
  }

  lemma LoadAcquireStep(b: Binding, sh: Shared, id: WorkerId, pc: DeployPc)
    requires Durable(b, sh) && DeployLocal(b, sh, pc) && (pc.DLoad? || pc.DAcquire?)
    ensures GoodStep(b, sh, id, Deploy(pc), ExecDeploy(b, sh, id, pc))
  {
    hide View, HasExactIndex, SafeReason, WithoutOwnedIndex, Rows;
    match pc
    case DLoad =>
    case DAcquire(_) =>
  }

  lemma BeforeIntentStep(b: Binding, sh: Shared, id: WorkerId, pc: DeployPc)
    requires Durable(b, sh) && DeployLocal(b, sh, pc) && (pc.DReadBefore? || pc.DIntent?)
    requires sh.lock == Some(id)
    ensures GoodStep(b, sh, id, Deploy(pc), ExecDeploy(b, sh, id, pc))
  {
    hide View, HasExactIndex, SafeReason, WithoutOwnedIndex, Rows;
    match pc
    case DReadBefore(_) =>
    case DIntent(_, _) =>
  }

  /** The one way into DEPLOYING, and the one way into DEPLOYED. */
  lemma Edges(current: RunStatus)
    ensures ValidTransition(current, DEPLOYING) <==> current == APPROVED
    ensures ValidTransition(current, DEPLOYED) <==> current == DEPLOYING
  {
  }

  lemma BeginStep(b: Binding, sh: Shared, id: WorkerId, pc: DeployPc)
    requires Durable(b, sh) && DeployLocal(b, sh, pc) && pc.DBegin?
    requires sh.lock == Some(id)
    ensures GoodStep(b, sh, id, Deploy(pc), ExecDeploy(b, sh, id, pc))
  {
    hide View, HasExactIndex, SafeReason, WithoutOwnedIndex, Rows, ValidTransition;
    Edges(sh.status);
  }

  lemma RecoveryIntentStep(b: Binding, sh: Shared, id: WorkerId, pc: DeployPc)
    requires Durable(b, sh) && DeployLocal(b, sh, pc) && (pc.DRecordIntent? || pc.DLedgerIntent?)
    requires sh.lock == Some(id)
    ensures GoodStep(b, sh, id, Deploy(pc), ExecDeploy(b, sh, id, pc))
  {
    hide View, HasExactIndex, SafeReason, WithoutOwnedIndex, Rows;
    match pc
    case DRecordIntent(_, _) =>
    case DLedgerIntent(before) =>
      RowsAppend(sh.ledger, DeploymentIntent(before), true);
      RowsAppend(sh.ledger, DeploymentIntent(before), false);
  }

  lemma ExecuteStep(b: Binding, sh: Shared, id: WorkerId, pc: DeployPc)
    requires Durable(b, sh) && DeployLocal(b, sh, pc) && (pc.DExecStart? || pc.DObserve?)
    requires sh.lock == Some(id)
    ensures GoodStep(b, sh, id, Deploy(pc), ExecDeploy(b, sh, id, pc))
  {
    hide View, HasExactIndex, SafeReason, WithoutOwnedIndex, Rows;
    match pc
    case DExecStart(_) =>
    case DObserve(_, _) =>
  }

  lemma CreateConfirmStep(b: Binding, sh: Shared, id: WorkerId, pc: DeployPc)
    requires Durable(b, sh) && DeployLocal(b, sh, pc) && (pc.DCreate? || pc.DConfirm?)
    requires sh.lock == Some(id)
    ensures GoodStep(b, sh, id, Deploy(pc), ExecDeploy(b, sh, id, pc))
  {
    hide View, HasExactIndex, SafeReason, WithoutOwnedIndex, Rows;
    match pc
    case DCreate(_) =>
    case DConfirm(_) =>
  }

  lemma VerifyMarkStep(b: Binding, sh: Shared, id: WorkerId, pc: DeployPc)
    requires Durable(b, sh) && DeployLocal(b, sh, pc) && (pc.DReadAfter? || pc.DMark?)
    requires sh.lock == Some(id)
    ensures GoodStep(b, sh, id, Deploy(pc), ExecDeploy(b, sh, id, pc))
  {
    hide View, HasExactIndex, SafeReason, WithoutOwnedIndex, Rows;
    match pc
    case DReadAfter(_) =>
    case DMark(_, _) =>
  }

  lemma LedgerAppliedStep(b: Binding, sh: Shared, id: WorkerId, pc: DeployPc)
    requires Durable(b, sh) && DeployLocal(b, sh, pc) && (pc.DLedgerApplied? || pc.DReadStatus?)
    requires sh.lock == Some(id)
    ensures GoodStep(b, sh, id, Deploy(pc), ExecDeploy(b, sh, id, pc))
  {
    hide View, HasExactIndex, SafeReason, WithoutOwnedIndex, Rows;
    match pc
    case DLedgerApplied(before, after) =>
      RowsAppend(sh.ledger, DeploymentApplied(before, after), true);
      RowsAppend(sh.ledger, DeploymentApplied(before, after), false);
    case DReadStatus =>
  }

  lemma FinishStep(b: Binding, sh: Shared, id: WorkerId, pc: DeployPc)
    requires Durable(b, sh) && DeployLocal(b, sh, pc) && (pc.DRecheck? || pc.DFinish?)
    requires sh.lock == Some(id)
    ensures GoodStep(b, sh, id, Deploy(pc), ExecDeploy(b, sh, id, pc))
  {
    hide View, HasExactIndex, SafeReason, WithoutOwnedIndex, Rows;
    match pc
    case DRecheck =>
    case DFinish =>
  }

  lemma DeployStep(b: Binding, sh: Shared, id: WorkerId, pc: DeployPc)
    requires Durable(b, sh) && DeployLocal(b, sh, pc)
    requires Locked(Deploy(pc)) ==> sh.lock == Some(id)
    ensures GoodStep(b, sh, id, Deploy(pc), ExecDeploy(b, sh, id, pc))
  {
    if pc.DLoad? || pc.DAcquire? { LoadAcquireStep(b, sh, id, pc); }
    else if pc.DReadBefore? || pc.DIntent? { BeforeIntentStep(b, sh, id, pc); }
    else if pc.DBegin? { BeginStep(b, sh, id, pc); }
    else if pc.DRecordIntent? || pc.DLedgerIntent? { RecoveryIntentStep(b, sh, id, pc); }
    else if pc.DExecStart? || pc.DObserve? { ExecuteStep(b, sh, id, pc); }
    else if pc.DCreate? || pc.DConfirm? { CreateConfirmStep(b, sh, id, pc); }
    else if pc.DReadAfter? || pc.DMark? { VerifyMarkStep(b, sh, id, pc); }
    else if pc.DLedgerApplied? || pc.DReadStatus? { LedgerAppliedStep(b, sh, id, pc); }
    else { FinishStep(b, sh, id, pc); }
  }

  lemma BoundOutcomeStep(b: Binding, sh: Shared, id: WorkerId, pc: RollbackPc)
    requires Durable(b, sh) && RollbackLocal(b, sh, pc) && (pc.RBound? || pc.ROutcome? || pc.RAcquire?)
    ensures GoodStep(b, sh, id, Rollback(pc), ExecRollback(b, sh, id, pc))
  {
    hide View, HasExactIndex, SafeReason, WithoutOwnedIndex, Rows;
    match pc
    case RBound =>
    case ROutcome(_) =>
    case RAcquire(_) =>
  }

  lemma ReadStep(b: Binding, sh: Shared, id: WorkerId, pc: RollbackPc)
    requires Durable(b, sh) && RollbackLocal(b, sh, pc) && (pc.RReadState? || pc.RReadRecord?)
    requires sh.lock == Some(id)
    ensures GoodStep(b, sh, id, Rollback(pc), ExecRollback(b, sh, id, pc))
  {
    hide View, Named, WithoutOwnedIndex, Rows;
    match pc
    case RReadState(_) =>
    case RReadRecord(_, _) =>
  }

  lemma BlockStep(b: Binding, sh: Shared, id: WorkerId, pc: RollbackPc)
    requires Durable(b, sh) && RollbackLocal(b, sh, pc) && pc.RBlock?
    requires sh.lock == Some(id)
    ensures GoodStep(b, sh, id, Rollback(pc), ExecRollback(b, sh, id, pc))
  {
    hide View, HasExactIndex, SafeReason, WithoutOwnedIndex, Rows;
  }

  lemma UnverifiedStep(b: Binding, sh: Shared, id: WorkerId, pc: RollbackPc)
    requires Durable(b, sh) && RollbackLocal(b, sh, pc) && pc.RUnverified?
    requires sh.lock == Some(id)
    ensures GoodStep(b, sh, id, Rollback(pc), ExecRollback(b, sh, id, pc))
  {
    hide View, HasExactIndex, SafeReason, WithoutOwnedIndex, Rows;
  }

  lemma RecordIntentStep(b: Binding, sh: Shared, id: WorkerId, pc: RollbackPc)
    requires Durable(b, sh) && RollbackLocal(b, sh, pc) && pc.RIntent?
    requires sh.lock == Some(id)
    ensures GoodStep(b, sh, id, Rollback(pc), ExecRollback(b, sh, id, pc))
  {
    hide View, HasExactIndex, SafeReason, WithoutOwnedIndex, Rows;
  }

  lemma DropStep(b: Binding, sh: Shared, id: WorkerId, pc: RollbackPc)
    requires Durable(b, sh) && RollbackLocal(b, sh, pc) && pc.RDrop?
    requires sh.lock == Some(id)
    ensures GoodStep(b, sh, id, Rollback(pc), ExecRollback(b, sh, id, pc))
  {
    hide View, HasExactIndex, SafeReason, WithoutOwnedIndex, Rows;
  }

  lemma CheckStep(b: Binding, sh: Shared, id: WorkerId, pc: RollbackPc)
    requires Durable(b, sh) && RollbackLocal(b, sh, pc) && (pc.RVerify? || pc.RCheckLedger?)
    requires sh.lock == Some(id)
    ensures GoodStep(b, sh, id, Rollback(pc), ExecRollback(b, sh, id, pc))
  {
    hide View, HasExactIndex, SafeReason, WithoutOwnedIndex, Rows;
    match pc
    case RVerify(_, _) =>
    case RCheckLedger(_, _) =>
  }

  lemma FinalStep(b: Binding, sh: Shared, id: WorkerId, pc: RollbackPc)
    requires Durable(b, sh) && RollbackLocal(b, sh, pc) && (pc.RLedger? || pc.RFinal?)
    requires sh.lock == Some(id)
    ensures GoodStep(b, sh, id, Rollback(pc), ExecRollback(b, sh, id, pc))
  {
    hide View, HasExactIndex, SafeReason, WithoutOwnedIndex, Rows;
    match pc
    case RLedger(before, after) =>
      RowsAppend(sh.ledger, RollbackApplied(before, after), true);
      RowsAppend(sh.ledger, RollbackApplied(before, after), false);
    case RFinal(_, _) =>
  }

  lemma RollbackStep(b: Binding, sh: Shared, id: WorkerId, pc: RollbackPc)
    requires Durable(b, sh) && RollbackLocal(b, sh, pc)
    requires Locked(Rollback(pc)) ==> sh.lock == Some(id)
    ensures GoodStep(b, sh, id, Rollback(pc), ExecRollback(b, sh, id, pc))
  {
    if pc.RBound? || pc.ROutcome? || pc.RAcquire? { BoundOutcomeStep(b, sh, id, pc); }
    else if pc.RReadState? || pc.RReadRecord? { ReadStep(b, sh, id, pc); }
    else if pc.RBlock? { BlockStep(b, sh, id, pc); }
    else if pc.RUnverified? { UnverifiedStep(b, sh, id, pc); }
    else if pc.RIntent? { RecordIntentStep(b, sh, id, pc); }
    else if pc.RDrop? { DropStep(b, sh, id, pc); }
    else if pc.RVerify? || pc.RCheckLedger? { CheckStep(b, sh, id, pc); }
    else { FinalStep(b, sh, id, pc); }
  }
}
