/** The deployment and rollback services as they are written: statements on mutable rows.
    Each call is proved to leave exactly what the protocol's uninterrupted run leaves. */
module ControlPlane {
  import opened Catalog
  import opened Lifecycle
  import opened DeployProtocol
  import opened SettledInvariant
  import opened DeployOutcomes

  /** The run's rows, its target collection and the target's lock. */
  class Services {
    var target: Namespace
    var status: RunStatus
    var artifact: Option<Artifact>
    var recovery: Option<Recovery>
    var record: Option<RollbackRecord>
    var ledger: seq<Event>
    var lock: Option<WorkerId>
    var creates: nat
    var drops: nat

    constructor (t0: Namespace)
      ensures State() == Fresh(t0)
    {
      target, status, artifact, recovery, record := t0, APPROVED, None, None, None;
      ledger, lock, creates, drops := [], None, 0, 0;
    }

    function State(): Shared
      reads this
    {
      Shared(target, status, artifact, recovery, record, ledger, lock, creates, drops)
    }

    // ---------------------------------------------------------- deploy_for_run

    method DeployForRun(b: Binding, id: WorkerId) returns (result: Result)
      modifies this
      ensures Next(State(), Done(result)) == Solo(b, old(State()), id, Deploy(DLoad))
      ensures result == Succeeded <==> old(lock).None? && Succeeds(b, old(State()), old(status), old(target))
      ensures result == Succeeded ==> Exact(b, target) && artifact.Some? && artifact.value.status.Applied?
    {
      hide View, HasExactIndex, Rank;
      DeployOutcome(b, State(), id);
      if Solo(b, State(), id, Deploy(DLoad)).w == Done(Succeeded) {
        SuccessMeans(b, State(), id);
      }
      hide DeployedRows, Succeeds;
      var runStatus := status;
      Unfold(b, State(), id, Deploy(DLoad));
      Unfold(b, State(), id, Deploy(DAcquire(runStatus)));
      if lock.Some? {
        return Failed;
      }
      lock := Some(id);
      result := DeployLocked(b, id, runStatus);
      Unfold(b, State(), id, Releasing(result));
      lock := None;
    }

    method DeployLocked(b: Binding, id: WorkerId, runStatus: RunStatus) returns (result: Result)
      modifies this
      ensures Solo(b, old(State()), id, Deploy(DReadBefore(runStatus))) == Solo(b, State(), id, Releasing(result))
    {
      hide View, HasExactIndex, Solo;
      var before := View(target);
      Unfold(b, State(), id, Deploy(DReadBefore(runStatus)));
      Unfold(b, State(), id, Deploy(DIntent(runStatus, before)));
      var created := artifact.None?;
      if artifact.None? {
        artifact := Some(Artifact(b, IntentRecorded, before, None));
      } else if artifact.value.binding != b {
        return Failed;
      }
      var applied := artifact.value.status.Applied?;
      Unfold(b, State(), id, Deploy(DBegin(runStatus, before, applied, created)));
      if runStatus == APPROVED {
        if !ValidTransition(status, DEPLOYING) {
          return Failed;
        }
        status := DEPLOYING;
      } else if runStatus != DEPLOYING && runStatus != DEPLOYED {
        return Failed;
      }
      if applied {
        result := ConfirmDeployed(b, id, before);
      } else {
        result := Reconcile(b, id, before, created);
      }
    }

    /** The artifact is APPLIED: verify, never mutate again. */
    method ConfirmDeployed(b: Binding, id: WorkerId, before: State) returns (result: Result)
      modifies this
      ensures Solo(b, old(State()), id, Continue(HasExactIndex(before, b.index), DRecheck))
              == Solo(b, State(), id, Releasing(result))
    {
      hide View, HasExactIndex, Solo;
      if !HasExactIndex(before, b.index) {
        return Failed;
      }
      Unfold(b, State(), id, Deploy(DRecheck));
      if status == DEPLOYING {
        result := Finish(b, id);
      } else {
        result := if status == DEPLOYED then Succeeded else Failed;
      }
    }

    method Finish(b: Binding, id: WorkerId) returns (result: Result)
      modifies this
      ensures Solo(b, old(State()), id, Deploy(DFinish)) == Solo(b, State(), id, Releasing(result))
    {
      hide View, HasExactIndex, Solo;
      Unfold(b, State(), id, Deploy(DFinish));
      if !ValidTransition(status, DEPLOYED) {
        return Failed;
      }
      status := DEPLOYED;
      result := Succeeded;
    }

    method Reconcile(b: Binding, id: WorkerId, before: State, created: bool) returns (result: Result)
      modifies this
      ensures Solo(b, old(State()), id, Deploy(DRecordIntent(before, created)))
              == Solo(b, State(), id, Releasing(result))
    {
      hide View, HasExactIndex, Solo;
      Unfold(b, State(), id, Deploy(DRecordIntent(before, created)));
      if recovery.None? {
        recovery := Some(Recovery(b.index, ExecutionIntent));
      }
      if created {
        Unfold(b, State(), id, Deploy(DLedgerIntent(before)));
        ledger := ledger + [DeploymentIntent(before)];
      }
      var ok := ExecuteOrRecover(b, id, before);
      if !ok {
        return Failed;
      }
      result := VerifyAndMark(b, id, before);
    }

    /** The recovery row is stepped around the one external mutation, which is left out when the
        execution was confirmed before or its exact effect is observed. */
    method ExecuteOrRecover(b: Binding, id: WorkerId, before: State) returns (ok: bool)
      modifies this
      ensures Solo(b, old(State()), id, Deploy(DExecStart(before)))
              == Solo(b, State(), id, Continue(ok, DReadAfter(before)))
      ensures ok <==> old(recovery).Some?
      ensures State() == Executed(b, old(State()))
    {
      hide View, HasExactIndex, Solo, Exec;
      ExecutionStarts(b, State(), id, before);
      if recovery.None? {
        return false;
      }
      if recovery.value.state.ExecutionConfirmed? {
        return true;
      }
      var expected := recovery.value.expected;
      recovery := Some(recovery.value.(state := ExecutionStarted));
      MutationFollows(b, State(), id, before, expected);
      if !(expected == b.index && HasExactIndex(View(target), b.index)) {
        target := Created(target, b.index);
        creates := creates + 1;
      }
      ConfirmationFollows(b, State(), id, before);
      recovery := Some(recovery.value.(state := ExecutionConfirmed));
      return true;
    }

    method VerifyAndMark(b: Binding, id: WorkerId, before: State) returns (result: Result)
      modifies this
      ensures Solo(b, old(State()), id, Deploy(DReadAfter(before))) == Solo(b, State(), id, Releasing(result))
    {
      hide View, HasExactIndex, Solo, ExecRollback, ExecStart, ValidTransition;
      var after := View(target);
      Unfold(b, State(), id, Deploy(DReadAfter(before)));
      if !HasExactIndex(after, b.index) {
        return Failed;
      }
      Unfold(b, State(), id, Deploy(DMark(before, after)));
      if artifact.Some? {
        artifact := Some(artifact.value.(status := Applied, after := Some(after)));
      }
      Unfold(b, State(), id, Deploy(DLedgerApplied(before, after)));
      ledger := ledger + [DeploymentApplied(before, after)];
      Unfold(b, State(), id, Deploy(DReadStatus));
      if status == DEPLOYING {
        result := Finish(b, id);
      } else {
        result := Succeeded;
      }
    }

    // ---------------------------------------------------------- rollback_for_run

    method RollbackForRun(b: Binding, id: WorkerId) returns (result: Result)
      modifies this
      ensures Next(State(), Done(result)) == Solo(b, old(State()), id, Rollback(RBound))
      ensures drops == old(drops) + (if Drops(b, old(State())) then 1 else 0)
      ensures target == if Drops(b, old(State())) then Dropped(old(target), b.index.name) else old(target)
    {
      hide View, HasExactIndex, SafeReason, Rank, Drops;
      DropsIff(b, State(), id);
      Unfold(b, State(), id, Rollback(RBound));
      if artifact.None? {
        return Failed;
      }
      var a := artifact.value;
      var bound := Bound(a.binding.candidateFingerprint, a.binding.index, a.after);
      Unfold(b, State(), id, Rollback(ROutcome(bound)));
      if record.Some? && record.value.RolledBack? {
        return ReportedRolledBack;
      }
      if record.Some? && record.value.RollbackBlocked? {
        return ReportedBlocked(record.value.reason);
      }
      Unfold(b, State(), id, Rollback(RAcquire(bound)));
      if lock.Some? {
        return ReportedBlocked(TargetLockUnavailable);
      }
      lock := Some(id);
      result := RollbackLocked(b, id, bound);
      Unfold(b, State(), id, Releasing(result));
      lock := None;
    }

    method RollbackLocked(b: Binding, id: WorkerId, bound: Bound) returns (result: Result)
      modifies this
      ensures Solo(b, old(State()), id, Rollback(RReadState(bound))) == Solo(b, State(), id, Releasing(result))
    {
      hide View, HasExactIndex, SafeReason, Solo, WithoutOwnedIndex;
      var state := View(target);
      Unfold(b, State(), id, Rollback(RReadState(bound)));
      Unfold(b, State(), id, Rollback(RReadRecord(bound, state)));
      if record.Some? && record.value.RollbackIntent? && state == record.value.expectedAfter {
        result := FinalizeRecord(b, id, record.value.before, state);
        return;
      }
      var reason := SafeReason(b, bound, state);
      if reason.Some? {
        Unfold(b, State(), id, Rollback(RBlock(reason.value, state)));
        var ok := Record(RollbackBlocked(reason.value, state));
        return if ok then ReportedBlocked(reason.value) else Failed;
      }
      result := DropOwned(b, id, state);
    }

    method DropOwned(b: Binding, id: WorkerId, state: State) returns (result: Result)
      modifies this
      ensures Solo(b, old(State()), id, Rollback(RIntent(state))) == Solo(b, State(), id, Releasing(result))
    {
      hide View, HasExactIndex, SafeReason, Solo, WithoutOwnedIndex;
      var expectedAfter := WithoutOwnedIndex(state, b.index.name);
      Unfold(b, State(), id, Rollback(RIntent(state)));
      var ok := Record(RollbackIntent(state, expectedAfter));
      if !ok {
        return Failed;
      }
      Unfold(b, State(), id, Rollback(RDrop(state, expectedAfter)));
      target := Dropped(target, b.index.name);
      drops := drops + 1;
      var after := View(target);
      Unfold(b, State(), id, Rollback(RVerify(state, expectedAfter)));
      if after != expectedAfter {
        Unfold(b, State(), id, Rollback(RUnverified(after)));
        ok := Record(RollbackBlocked(InverseUnverified, after));
        return if ok then ReportedBlocked(InverseUnverified) else Failed;
      }
      result := FinalizeRecord(b, id, state, after);
    }

    method FinalizeRecord(b: Binding, id: WorkerId, before: State, after: State) returns (result: Result)
      modifies this
      ensures Solo(b, old(State()), id, Rollback(RCheckLedger(before, after)))
              == Solo(b, State(), id, Releasing(result))
    {
      hide View, HasExactIndex, SafeReason, Solo, Rows;
      Unfold(b, State(), id, Rollback(RCheckLedger(before, after)));
      if Rows(ledger, true) == 0 {
        Unfold(b, State(), id, Rollback(RLedger(before, after)));
        ledger := ledger + [RollbackApplied(before, after)];
      }
      Unfold(b, State(), id, Rollback(RFinal(before, after)));
      var ok := Record(RolledBack(before, after));
      result := if ok then ReportedRolledBack else Failed;
    }

    /** Insert or update the rollback row; a terminal outcome refuses any other status. */
    method Record(row: RollbackRecord) returns (ok: bool)
      modifies this
      ensures Tx(State(), ok) == RecordTx(old(State()), row)
      ensures old(record).Some? && !old(record).value.RollbackIntent? ==> record == old(record)
      ensures record == old(record) || record == Some(row)
    {
      if record.None? || (record.value.RollbackIntent? && !row.RollbackIntent?) {
        record := Some(row);
        return true;
      }
      return SameStatus(record.value, row);
    }
  }
}
