/** What a call leaves from each of its program points, on rows and on a collection in any state at all.
    No history is assumed, and what the call read before may be stale: whatever other calls and
    outsiders did in between is covered. */
module DeployOutcomes {
  import opened Catalog
  import opened Lifecycle
  import opened DeployProtocol
  import opened DeployInvariant
  import opened SettledInvariant

  /** One protocol step of an uninterrupted run. */
  lemma {:induction false} Unfold(b: Binding, sh: Shared, id: WorkerId, w: Worker)
    requires !w.Done?
    ensures var next := Exec(b, sh, id, w); Solo(b, sh, id, w) == Solo(b, next.sh, id, next.w)
  {
    hide Exec, Rank;
  }

  /** The exact effect is in place although no confirmation is on record. */
  predicate Observed(b: Binding, sh: Shared) {
    sh.recovery.Some? && sh.recovery.value.expected == b.index && HasExactIndex(View(sh.target), b.index)
  }

  /** The rows after executing or recovering: confirmed, with the mutation done now or before. */
  function Executed(b: Binding, sh: Shared): Shared {
    if sh.recovery.None? then sh
    else
      var confirmed := sh.(recovery := Some(sh.recovery.value.(state := ExecutionConfirmed)));
      if sh.recovery.value.state.ExecutionConfirmed? || Observed(b, sh) then confirmed
      else confirmed.(target := Created(sh.target, b.index), creates := sh.creates + 1)
  }

  lemma {:induction false} ExecutionStarts(b: Binding, sh: Shared, id: WorkerId, before: State)
    ensures var start := Solo(b, sh, id, Deploy(DExecStart(before)));
            match sh.recovery
            case None => start == Solo(b, sh, id, Releasing(Failed))
            case Some(r) =>
              if r.state.ExecutionConfirmed? then start == Solo(b, sh, id, Deploy(DReadAfter(before)))
              else start == Solo(b, sh.(recovery := Some(r.(state := ExecutionStarted))), id,
                                 Deploy(DObserve(before, r.expected)))
  {
    Unfold(b, sh, id, Deploy(DExecStart(before)));
    hide Solo;
  }

  lemma {:induction false} MutationFollows(b: Binding, sh: Shared, id: WorkerId, before: State, expected: IndexSpec)
    ensures Solo(b, sh, id, Deploy(DObserve(before, expected)))
            == Solo(b,
                    if expected == b.index && HasExactIndex(View(sh.target), b.index) then sh else CreateTx(b, sh),
                    id,
                    Deploy(DConfirm(before)))
  {
    hide Solo, View, HasExactIndex, ExecRollback;
    Unfold(b, sh, id, Deploy(DObserve(before, expected)));
    if !(expected == b.index && HasExactIndex(View(sh.target), b.index)) {
      Unfold(b, sh, id, Deploy(DCreate(before)));
    }
  }

  lemma {:induction false} ConfirmationFollows(b: Binding, sh: Shared, id: WorkerId, before: State)
    ensures Solo(b, sh, id, Deploy(DConfirm(before))) == Solo(b, ConfirmTx(sh), id, Deploy(DReadAfter(before)))
  {
    Unfold(b, sh, id, Deploy(DConfirm(before)));
  }

  // ------------------------------------------------------------ deployment, from its end backwards

  lemma {:induction false} Released(b: Binding, sh: Shared, id: WorkerId, result: Result)
    ensures Solo(b, sh, id, Releasing(result)) == Next(sh.(lock := None), Done(result))
  {
    Unfold(b, sh, id, Releasing(result));
  }

  lemma {:induction false} DoneStays(b: Binding, sh: Shared, id: WorkerId, result: Result)
    ensures Solo(b, sh, id, Done(result)) == Next(sh, Done(result))
  {
  }

  /** A deployment that is through closes the run. */
  function Closed(status: RunStatus): RunStatus {
    if status == DEPLOYING then DEPLOYED else status
  }

  lemma {:induction false} Finished(b: Binding, sh: Shared, id: WorkerId)
    ensures Solo(b, sh, id, Deploy(DFinish))
            == if sh.status == DEPLOYING then Next(sh.(status := DEPLOYED, lock := None), Done(Succeeded))
               else Next(sh.(lock := None), Done(Failed))
  {
    hide Solo, ExecRollback, ExecStart;
    Unfold(b, sh, id, Deploy(DFinish));
    Released(b, sh.(status := DEPLOYED), id, Succeeded);
    Released(b, sh, id, Failed);
  }

  lemma {:induction false} MarkedFrom(b: Binding, sh: Shared, id: WorkerId, before: State, after: State)
    requires sh.artifact.Some?
    ensures Solo(b, sh, id, Deploy(DMark(before, after)))
            == Next(sh.(artifact := Some(sh.artifact.value.(status := Applied, after := Some(after))),
                        ledger := sh.ledger + [DeploymentApplied(before, after)],
                        status := Closed(sh.status), lock := None),
                    Done(Succeeded))
  {
    hide Solo, ExecRollback, ExecStart, ValidTransition;
    Unfold(b, sh, id, Deploy(DMark(before, after)));
    var marked := sh.(artifact := Some(sh.artifact.value.(status := Applied, after := Some(after))));
    Unfold(b, marked, id, Deploy(DLedgerApplied(before, after)));
    var told := marked.(ledger := sh.ledger + [DeploymentApplied(before, after)]);
    Unfold(b, told, id, Deploy(DReadStatus));
    if sh.status == DEPLOYING {
      Finished(b, told, id);
    } else {
      Released(b, told, id, Succeeded);
    }
  }

  /** The verification point: a target whose dictionary does not map the name to the action's keys
      fails the call and changes nothing; any other is recorded as the applied state. */
  lemma {:induction false} VerificationDecides(b: Binding, sh: Shared, id: WorkerId, before: State)
    requires sh.artifact.Some?
    ensures var end := Solo(b, sh, id, Deploy(DReadAfter(before)));
            var after := View(sh.target);
            if !Exact(b, sh.target) then end == Next(sh.(lock := None), Done(Failed))
            else
              end == Next(sh.(artifact := Some(sh.artifact.value.(status := Applied, after := Some(after))),
                              ledger := sh.ledger + [DeploymentApplied(before, after)],
                              status := Closed(sh.status), lock := None),
                          Done(Succeeded))
  {
    hide View, HasExactIndex, Rank, ExecRollback, ExecStart;
    HasExactView(sh.target, b.index);
    var after := View(sh.target);
    Unfold(b, sh, id, Deploy(DReadAfter(before)));
    if Exact(b, sh.target) {
      MarkedFrom(b, sh, id, before, after);
    } else {
      Released(b, sh, id, Failed);
    }
  }

  /** The mutation is left out when it is confirmed, or when its own record expects this very index
      and the dictionary has it. */
  predicate NeedsCreate(b: Binding, sh: Shared) {
    && !(sh.recovery.Some? && sh.recovery.value.state.ExecutionConfirmed?)
    && !((sh.recovery.Some? ==> sh.recovery.value.expected == b.index) && Exact(b, sh.target))
  }

  function Effected(b: Binding, sh: Shared): Namespace {
    if NeedsCreate(b, sh) then Created(sh.target, b.index) else sh.target
  }

  lemma {:induction false} ExecutionDecides(b: Binding, sh: Shared, id: WorkerId, before: State)
    requires sh.recovery.Some?
    ensures Solo(b, sh, id, Deploy(DExecStart(before)))
            == Solo(b, sh.(recovery := Some(sh.recovery.value.(state := ExecutionConfirmed)), target := Effected(b, sh),
                           creates := sh.creates + (if NeedsCreate(b, sh) then 1 else 0)),
                    id, Deploy(DReadAfter(before)))
  {
    hide View, HasExactIndex, Solo, Exec;
    HasExactView(sh.target, b.index);
    ExecutionStarts(b, sh, id, before);
    var r := sh.recovery.value;
    if r.state.ExecutionConfirmed? {
      assert sh.(recovery := Some(r.(state := ExecutionConfirmed))) == sh;
    } else {
      var started := sh.(recovery := Some(r.(state := ExecutionStarted)));
      MutationFollows(b, started, id, before, r.expected);
      ConfirmationFollows(b, started, id, before);
      ConfirmationFollows(b, CreateTx(b, started), id, before);
    }
  }

  predicate IsConfirmed(sh: Shared) {
    sh.recovery.Some? && sh.recovery.value.state.ExecutionConfirmed?
  }

  /** The rows of a success that had something to do. */
  function NewlyApplied(b: Binding, sh: Shared, told: seq<Event>, before: State): Shared
    requires sh.artifact.Some?
  {
    var after := Effected(b, sh);
    var a := sh.artifact.value;
    var expected := if sh.recovery.Some? then sh.recovery.value.expected else b.index;
    Shared(after, Closed(sh.status), Some(Artifact(a.binding, Applied, a.before, Some(View(after)))),
           Some(Recovery(expected, ExecutionConfirmed)), sh.record,
           told + [DeploymentApplied(before, View(after))], None,
           sh.creates + (if NeedsCreate(b, sh) then 1 else 0), sh.drops)
  }

  lemma {:induction false} ReconcileDecides(b: Binding, sh: Shared, id: WorkerId, before: State, created: bool)
    requires sh.artifact.Some?
    ensures var told := sh.ledger + (if created then [DeploymentIntent(before)] else []);
            Solo(b, sh, id, Deploy(DRecordIntent(before, created)))
            == if IsConfirmed(sh) && !Exact(b, sh.target) then Next(sh.(ledger := told, lock := None), Done(Failed))
               else Next(NewlyApplied(b, sh, told, before), Done(Succeeded))
  {
    hide View, HasExactIndex, Solo, ExecRollback, ExecStart, ValidTransition;
    Unfold(b, sh, id, Deploy(DRecordIntent(before, created)));
    var ready := RecoveryIntentTx(b, sh);
    if created {
      Unfold(b, ready, id, Deploy(DLedgerIntent(before)));
    }
    var told := ready.(ledger := sh.ledger + (if created then [DeploymentIntent(before)] else []));
    assert created || told == ready;
    ExecutionDecides(b, told, id, before);
    assert NeedsCreate(b, told) == NeedsCreate(b, sh);
    VerificationDecides(
      b, told.(recovery := Some(told.recovery.value.(state := ExecutionConfirmed)), target := Effected(b, told),
               creates := told.creates + (if NeedsCreate(b, told) then 1 else 0)), id, before);
  }

  /** The artifact is APPLIED: the observation has the index, and the run is or was being deployed. */
  lemma {:induction false} AppliedDecides(b: Binding, sh: Shared, id: WorkerId, seen: Namespace)
    ensures Solo(b, sh, id, Continue(HasExactIndex(View(seen), b.index), DRecheck))
            == if Exact(b, seen) && (sh.status == DEPLOYING || sh.status == DEPLOYED)
               then Next(sh.(status := DEPLOYED, lock := None), Done(Succeeded))
               else Next(sh.(lock := None), Done(Failed))
  {
    hide View, HasExactIndex, Solo, ExecRollback, ExecStart, ValidTransition;
    HasExactView(seen, b.index);
    Unfold(b, sh, id, Deploy(DRecheck));
    Finished(b, sh, id);
    Released(b, sh, id, Succeeded);
    Released(b, sh, id, Failed);
  }

  // ------------------------------------------------------------ a deployment call

  /** The rows with this action's intent: the one on record, or a new one. */
  function WithIntent(b: Binding, sh: Shared, before: State): Shared {
    if sh.artifact.Some? then sh else sh.(artifact := Some(Artifact(b, IntentRecorded, before, None)))
  }

  /** Whether a run that was loaded in status `st` goes on in its present status. */
  predicate Begins(st: RunStatus, status: RunStatus) {
    if st == APPROVED then status == APPROVED else st == DEPLOYING || st == DEPLOYED
  }

  function Started(st: RunStatus, status: RunStatus): RunStatus {
    if st == APPROVED then DEPLOYING else status
  }

  predicate Binds(b: Binding, sh: Shared) {
    sh.artifact.Some? ==> sh.artifact.value.binding == b
  }

  /** From the observation on, a deployment succeeds exactly when the recorded artifact binds this action,
      the run goes on, and, once the effect was applied or confirmed, the index is still there. */
  ghost predicate Succeeds(b: Binding, sh: Shared, st: RunStatus, seen: Namespace) {
    && Binds(b, sh) && Begins(st, sh.status)
    && if IsApplied(sh) then Exact(b, seen) && (Started(st, sh.status) == DEPLOYING || sh.status == DEPLOYED)
       else IsConfirmed(sh) ==> Exact(b, sh.target)
  }

  function IntentTold(sh: Shared, before: State): seq<Event> {
    sh.ledger + (if sh.artifact.None? then [DeploymentIntent(before)] else [])
  }

  /** The rows a deployment leaves that holds the lock and has observed `seen`. */
  ghost function DeployedRows(b: Binding, sh: Shared, st: RunStatus, seen: Namespace): Shared {
    var begun := WithIntent(b, sh, View(seen)).(status := Started(st, sh.status));
    var told := IntentTold(sh, View(seen));
    if !Binds(b, sh) then sh.(lock := None)
    else if !Begins(st, sh.status) then WithIntent(b, sh, View(seen)).(lock := None)
    else if IsApplied(sh) then
      begun.(status := if Exact(b, seen) then Closed(begun.status) else begun.status, lock := None)
    else if IsConfirmed(sh) && !Exact(b, sh.target) then begun.(ledger := told, lock := None)
    else NewlyApplied(b, begun, told, View(seen))
  }

  /** A deployment from its observation of the collection, which may be stale like the status it loaded:
      its result, and every row it leaves, by the dictionary. */
  lemma {:induction false} ObservedDeployment(b: Binding, sh: Shared, id: WorkerId, st: RunStatus, seen: Namespace)
    ensures Solo(b, sh, id, Deploy(DIntent(st, View(seen))))
            == Next(DeployedRows(b, sh, st, seen), Done(if Succeeds(b, sh, st, seen) then Succeeded else Failed))
  {
    hide View, HasExactIndex, Solo, ExecRollback, ExecStart, Effected;
    var before := View(seen);
    Unfold(b, sh, id, Deploy(DIntent(st, before)));
    if !Binds(b, sh) {
      Released(b, sh, id, Failed);
    } else {
      var intended := WithIntent(b, sh, before);
      var begun := intended.(status := Started(st, sh.status));
      BeginDecides(b, intended, id, st, before, IsApplied(sh), sh.artifact.None?);
      if Begins(st, sh.status) {
        if IsApplied(sh) {
          AppliedDecides(b, begun, id, seen);
        } else {
          ReconcileDecides(b, begun, id, before, sh.artifact.None?);
        }
      }
    }
  }

  lemma {:induction false} BeginDecides(b: Binding, sh: Shared, id: WorkerId, st: RunStatus, before: State,
                                        applied: bool, created: bool)
    ensures var start := Solo(b, sh, id, Deploy(DBegin(st, before, applied, created)));
            var begun := sh.(status := Started(st, sh.status));
            if !Begins(st, sh.status) then start == Next(sh.(lock := None), Done(Failed))
            else if applied then start == Solo(b, begun, id, Continue(HasExactIndex(before, b.index), DRecheck))
            else start == Solo(b, begun, id, Deploy(DRecordIntent(before, created)))
  {
    hide HasExactIndex, Solo, ExecRollback, ExecStart;
    Unfold(b, sh, id, Deploy(DBegin(st, before, applied, created)));
    Released(b, sh, id, Failed);
  }

  /** One deployment call on any rows and any collection. */
  lemma {:induction false} DeployOutcome(b: Binding, sh: Shared, id: WorkerId)
    ensures Solo(b, sh, id, Deploy(DLoad))
            == if sh.lock.Some? then Next(sh, Done(Failed))
               else Next(DeployedRows(b, sh, sh.status, sh.target),
                         Done(if Succeeds(b, sh, sh.status, sh.target) then Succeeded else Failed))
  {
    hide View, HasExactIndex, Solo, ExecRollback, ExecStart;
    var st := sh.status;
    Unfold(b, sh, id, Deploy(DLoad));
    Unfold(b, sh, id, Deploy(DAcquire(st)));
    if sh.lock.Some? {
      DoneStays(b, sh, id, Failed);
    } else {
      var mine := sh.(lock := Some(id));
      Unfold(b, mine, id, Deploy(DReadBefore(st)));
      ObservedDeployment(b, mine, id, st, sh.target);
      LockIsReleased(b, sh, id, st, sh.target);
    }
  }

  lemma LockIsReleased(b: Binding, sh: Shared, id: WorkerId, st: RunStatus, seen: Namespace)
    ensures DeployedRows(b, sh.(lock := Some(id)), st, seen) == DeployedRows(b, sh, st, seen)
    ensures Succeeds(b, sh.(lock := Some(id)), st, seen) == Succeeds(b, sh, st, seen)
  {
    hide View;
  }

  /** What a success means: the index is in place, the artifact says so, and the run is closed. */
  lemma {:induction false} SuccessMeans(b: Binding, sh: Shared, id: WorkerId)
    requires Solo(b, sh, id, Deploy(DLoad)).w == Done(Succeeded)
    ensures var end := Solo(b, sh, id, Deploy(DLoad)).sh;
            && Exact(b, end.target) && IsApplied(end) && end.artifact.value.binding == b
            && end.status == DEPLOYED && end.lock.None? && end.drops == sh.drops && end.record == sh.record
            && (!IsApplied(sh) ==> end.artifact.value.after == Some(View(end.target)))
  {
    hide View, Solo;
    DeployOutcome(b, sh, id);
  }

  // ------------------------------------------------------------ rollback, from its end backwards

  lemma {:induction false} RowsAre(ledger: seq<Event>)
    ensures Rows(ledger, true) > 0 <==> exists e :: e in ledger && e.RollbackApplied?
  {
    if ledger != [] {
      var init, last := ledger[..|ledger| - 1], ledger[|ledger| - 1];
      RowsAre(init);
      assert forall e :: e in ledger <==> e in init || e == last;
    }
  }

  /** The ledger with the one claim that the index was rolled back. */
  function Claimed(ledger: seq<Event>, before: State, after: State): seq<Event> {
    if exists e :: e in ledger && e.RollbackApplied? then ledger else ledger + [RollbackApplied(before, after)]
  }

  predicate Open(sh: Shared) {
    sh.record.None? || sh.record.value.RollbackIntent?
  }

  lemma {:induction false} ClaimedFrom(b: Binding, sh: Shared, id: WorkerId, before: State, after: State)
    requires Open(sh)
    ensures Solo(b, sh, id, Rollback(RCheckLedger(before, after)))
            == Next(sh.(ledger := Claimed(sh.ledger, before, after), record := Some(RolledBack(before, after)),
                        lock := None),
                    Done(ReportedRolledBack))
  {
    hide Solo, Rows, ExecDeploy;
    RowsAre(sh.ledger);
    Unfold(b, sh, id, Rollback(RCheckLedger(before, after)));
    Unfold(b, sh, id, Rollback(RLedger(before, after)));
    var told := sh.(ledger := Claimed(sh.ledger, before, after));
    Unfold(b, told, id, Rollback(RFinal(before, after)));
    Released(b, told.(record := Some(RolledBack(before, after))), id, ReportedRolledBack);
  }

  lemma {:induction false} BlockedFrom(b: Binding, sh: Shared, id: WorkerId, reason: Reason, seen: State)
    requires Open(sh)
    ensures Solo(b, sh, id, Rollback(RBlock(reason, seen)))
            == Next(sh.(record := Some(RollbackBlocked(reason, seen)), lock := None), Done(ReportedBlocked(reason)))
  {
    hide Solo, Rows, ExecDeploy;
    Unfold(b, sh, id, Rollback(RBlock(reason, seen)));
    Released(b, sh.(record := Some(RollbackBlocked(reason, seen))), id, ReportedBlocked(reason));
  }

  /** The second verification point: a collection that is not what the drop should have left, whoever
      changed it, blocks the rollback for good. */
  lemma {:induction false} DropVerified(b: Binding, sh: Shared, id: WorkerId, before: State, expected: State)
    requires Open(sh)
    ensures var after := View(sh.target);
            Solo(b, sh, id, Rollback(RVerify(before, expected)))
            == if after == expected then
                 Next(sh.(ledger := Claimed(sh.ledger, before, after), record := Some(RolledBack(before, after)),
                          lock := None),
                      Done(ReportedRolledBack))
               else
                 Next(sh.(record := Some(RollbackBlocked(InverseUnverified, after)), lock := None),
                      Done(ReportedBlocked(InverseUnverified)))
  {
    hide Solo, Rows, ExecDeploy, View;
    var after := View(sh.target);
    Unfold(b, sh, id, Rollback(RVerify(before, expected)));
    if after == expected {
      ClaimedFrom(b, sh, id, before, after);
    } else {
      Unfold(b, sh, id, Rollback(RUnverified(after)));
      Released(b, sh.(record := Some(RollbackBlocked(InverseUnverified, after))), id,
               ReportedBlocked(InverseUnverified));
    }
  }

  /** The drop itself, on a collection that may differ from the one observed. */
  lemma {:induction false} DroppedFrom(b: Binding, sh: Shared, id: WorkerId, seen: Namespace)
    requires Open(sh)
    ensures var dropped := Dropped(sh.target, b.index.name);
            var told := sh.(target := dropped, drops := sh.drops + 1, lock := None);
            Solo(b, sh, id, Rollback(RIntent(View(seen))))
            == if dropped == Dropped(seen, b.index.name) then
                 Next(told.(ledger := Claimed(sh.ledger, View(seen), View(dropped)),
                            record := Some(RolledBack(View(seen), View(dropped)))),
                      Done(ReportedRolledBack))
               else
                 Next(told.(record := Some(RollbackBlocked(InverseUnverified, View(dropped)))),
                      Done(ReportedBlocked(InverseUnverified)))
  {
    hide Solo, Rows, ExecDeploy, View, WithoutOwnedIndex, Claimed;
    WithoutView(seen, b.index.name);
    var expected := View(Dropped(seen, b.index.name));
    ViewInjective(Dropped(sh.target, b.index.name), Dropped(seen, b.index.name));
    Unfold(b, sh, id, Rollback(RIntent(View(seen))));
    var intended := RecordTx(sh, RollbackIntent(View(seen), expected)).sh;
    Unfold(b, intended, id, Rollback(RDrop(View(seen), expected)));
    DropVerified(b, DropTx(b, intended), id, View(seen), expected);
  }

  // ------------------------------------------------------------ a rollback call

  /** The collection is as the artifact left it, and the artifact is this action's. */
  ghost predicate Untouched(b: Binding, bound: Bound, t: Namespace) {
    && bound.candidateFingerprint == b.candidateFingerprint && bound.index == b.index
    && Exact(b, t) && bound.after == Some(View(t))
  }

  /** Why a collection may not be rolled back, by its dictionary. */
  ghost predicate Refuses(b: Binding, bound: Bound, t: Namespace, reason: Reason) {
    var fingerprint := bound.candidateFingerprint == b.candidateFingerprint;
    var valid := bound.after.Some? && bound.index == b.index;
    match reason
    case CandidateFingerprintDrift => !fingerprint
    case ArtifactInvalid => fingerprint && !valid
    case NamespaceMismatch => fingerprint && valid && t.Absent?
    case IndexSpecMismatch => fingerprint && valid && t.Present? && !Exact(b, t)
    case RelevantDrift => fingerprint && valid && Exact(b, t) && bound.after != Some(View(t))
    case InverseUnverified => false
    case TargetLockUnavailable => false
  }

  lemma SafeReasonDecides(b: Binding, bound: Bound, t: Namespace)
    ensures var reason := SafeReason(b, bound, View(t));
            && (reason.None? <==> Untouched(b, bound, t))
            && (reason.Some? ==> Refuses(b, bound, t, reason.value))
  {
    hide Named, Listing;
    if t.Present? {
      NamedView(t.indexes, b.index.name);
    }
  }

  /** The observed collection is already as a recorded intent wants it. */
  ghost predicate AlreadyDropped(sh: Shared, seen: Namespace) {
    sh.record.Some? && sh.record.value.RollbackIntent? && View(seen) == sh.record.value.expectedAfter
  }

  /** A rollback from its observation of the collection, which may be stale like the artifact it loaded.
      A finished drop is only recorded; otherwise the index is dropped exactly when the observation is
      what the artifact left, and a refusal changes nothing but the recorded outcome. */
  lemma {:induction false} ObservedRollback(b: Binding, sh: Shared, id: WorkerId, bound: Bound, seen: Namespace)
    requires Open(sh)
    ensures var end := Solo(b, sh, id, Rollback(RReadRecord(bound, View(seen))));
            && (AlreadyDropped(sh, seen) ==>
                  end == Next(sh.(ledger := Claimed(sh.ledger, sh.record.value.before, View(seen)),
                                  record := Some(RolledBack(sh.record.value.before, View(seen))), lock := None),
                              Done(ReportedRolledBack)))
            && (!AlreadyDropped(sh, seen) && Untouched(b, bound, seen) ==>
                  && end == Solo(b, sh, id, Rollback(RIntent(View(seen))))
                  && end.sh.target == Dropped(sh.target, b.index.name) && end.sh.drops == sh.drops + 1)
            && (!AlreadyDropped(sh, seen) && !Untouched(b, bound, seen) ==>
                  exists reason :: Refuses(b, bound, seen, reason)
                    && end == Next(sh.(record := Some(RollbackBlocked(reason, View(seen))), lock := None),
                                   Done(ReportedBlocked(reason))))
  {
    hide Solo, Rows, ExecDeploy, View, SafeReason, Claimed, Refuses, Untouched;
    Unfold(b, sh, id, Rollback(RReadRecord(bound, View(seen))));
    SafeReasonDecides(b, bound, seen);
    var reason := SafeReason(b, bound, View(seen));
    if AlreadyDropped(sh, seen) {
      ClaimedFrom(b, sh, id, sh.record.value.before, View(seen));
    } else if reason.None? {
      DroppedFrom(b, sh, id, seen);
    } else {
      BlockedFrom(b, sh, id, reason.value, View(seen));
    }
  }

  function BoundOf(a: Artifact): Bound {
    Bound(a.binding.candidateFingerprint, a.binding.index, a.after)
  }

  /** The one case in which a rollback call drops the index. */
  ghost predicate Drops(b: Binding, sh: Shared) {
    && sh.artifact.Some? && Open(sh) && sh.lock.None? && !AlreadyDropped(sh, sh.target)
    && Untouched(b, BoundOf(sh.artifact.value), sh.target)
  }

  /** One rollback call on any rows and any collection.  Without an artifact it fails, a terminal outcome
      is reported as it stands, a taken lock is reported, and otherwise the observation decides. */
  lemma {:induction false} RollbackOutcome(b: Binding, sh: Shared, id: WorkerId)
    ensures var end := Solo(b, sh, id, Rollback(RBound));
            var seen, after := View(sh.target), View(Dropped(sh.target, b.index.name));
            if sh.artifact.None? then end == Next(sh, Done(Failed))
            else if sh.record.Some? && sh.record.value.RolledBack? then end == Next(sh, Done(ReportedRolledBack))
            else if sh.record.Some? && sh.record.value.RollbackBlocked? then
              end == Next(sh, Done(ReportedBlocked(sh.record.value.reason)))
            else if sh.lock.Some? then end == Next(sh, Done(ReportedBlocked(TargetLockUnavailable)))
            else if AlreadyDropped(sh, sh.target) then
              end == Next(sh.(ledger := Claimed(sh.ledger, sh.record.value.before, seen),
                              record := Some(RolledBack(sh.record.value.before, seen))),
                          Done(ReportedRolledBack))
            else if Untouched(b, BoundOf(sh.artifact.value), sh.target) then
              end == Next(sh.(target := Dropped(sh.target, b.index.name), drops := sh.drops + 1,
                              ledger := Claimed(sh.ledger, seen, after), record := Some(RolledBack(seen, after))),
                          Done(ReportedRolledBack))
            else
              exists reason :: Refuses(b, BoundOf(sh.artifact.value), sh.target, reason)
                && end == Next(sh.(record := Some(RollbackBlocked(reason, seen))), Done(ReportedBlocked(reason)))
  {
    hide Solo, Rows, ExecDeploy, View, SafeReason, Claimed, Refuses, Untouched;
    Unfold(b, sh, id, Rollback(RBound));
    if sh.artifact.None? {
      DoneStays(b, sh, id, Failed);
    } else {
      var bound := BoundOf(sh.artifact.value);
      Unfold(b, sh, id, Rollback(ROutcome(bound)));
      DoneStays(b, sh, id, ReportedRolledBack);
      if Open(sh) {
        Unfold(b, sh, id, Rollback(RAcquire(bound)));
        DoneStays(b, sh, id, ReportedBlocked(TargetLockUnavailable));
        if sh.lock.None? {
          var mine := sh.(lock := Some(id));
          Unfold(b, mine, id, Rollback(RReadState(bound)));
          ObservedRollback(b, mine, id, bound, sh.target);
          DroppedFrom(b, mine, id, sh.target);
        }
      } else if sh.record.value.RollbackBlocked? {
        DoneStays(b, sh, id, ReportedBlocked(sh.record.value.reason));
      }
    }
  }

  /** The call drops the index exactly when nobody touched the collection since it was applied. */
  lemma {:induction false} DropsIff(b: Binding, sh: Shared, id: WorkerId)
    ensures var end := Solo(b, sh, id, Rollback(RBound)).sh;
            && end.drops == sh.drops + (if Drops(b, sh) then 1 else 0)
            && end.target == (if Drops(b, sh) then Dropped(sh.target, b.index.name) else sh.target)
            && end.artifact == sh.artifact && end.recovery == sh.recovery && end.status == sh.status
  {
    hide Solo, View, Claimed, Refuses, Untouched;
    RollbackOutcome(b, sh, id);
  }

  // ------------------------------------------------------------ the two guarded rows

  /** A terminal outcome replaces an intent and nothing replaces a terminal outcome; a second row of the same
      status is accepted and keeps the first one's contents. */
  lemma RecordExactly(sh: Shared, row: RollbackRecord)
    ensures var tx := RecordTx(sh, row);
            match sh.record
            case None => tx == Tx(sh.(record := Some(row)), true)
            case Some(RollbackIntent(_, _)) =>
              tx == Tx(if row.RollbackIntent? then sh else sh.(record := Some(row)), true)
            case Some(RolledBack(_, _)) => tx == Tx(sh, row.RolledBack?)
            case Some(RollbackBlocked(_, _)) => tx == Tx(sh, row.RollbackBlocked?)
  {
  }

  /** The recovery row starts as an intent to reach this very index, and is never replaced. */
  lemma RecoveryRecorded(b: Binding, sh: Shared, id: WorkerId, before: State, created: bool)
    ensures Exec(b, sh, id, Deploy(DRecordIntent(before, created))).sh
            == sh.(recovery := if sh.recovery.Some? then sh.recovery else Some(Recovery(b.index, ExecutionIntent)))
  {
  }

  // ------------------------------------------------------------ exceptions and deaths

  /** An exception leaves every row alone: a call that holds the lock fails and releases it, one that has
      not taken it fails, one that is over or releasing goes on.  A death takes the call and its lock. */
  lemma FailuresExactly(b: Binding, s: System, w: WorkerId)
    requires w in s.workers
    ensures var worker, after := s.workers[w], Apply(b, s, Abort(w));
            && after.shared == s.shared
            && after.workers == (if worker.Releasing? || worker.Done? then s.workers
                                 else if (worker.Deploy? && (worker.d.DLoad? || worker.d.DAcquire?))
                                         || (worker.Rollback?
                                             && (worker.r.RBound? || worker.r.ROutcome? || worker.r.RAcquire?))
                                 then s.workers[w := Done(Failed)]
                                 else s.workers[w := Releasing(Failed)])
    ensures var after := Apply(b, s, Crash(w));
            && after.workers.Keys == s.workers.Keys - {w}
            && (forall v :: v in after.workers ==> after.workers[v] == s.workers[v])
            && after.shared == s.shared.(lock := if s.shared.lock == Some(w) then None else s.shared.lock)
  {
  }
}
