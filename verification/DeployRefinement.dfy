/** Crashes do not matter: after any history, one uninterrupted call finishes the job exactly
    as a call that never crashed, or reports failure and leaves the target alone. */
module DeployRefinement {
  import opened Catalog
  import opened Lifecycle
  import opened DeployProtocol
  import opened DeployInvariant
  import opened SettledInvariant
  import opened DeployRuns
  import opened DeployCalls
  import opened DeployTheorems

  /** What is left when every worker has died. */
  function Survivors(sh: Shared): Shared {
    sh.(lock := None)
  }

  predicate Deployable(s: RunStatus) {
    s == APPROVED || s == DEPLOYING || s == DEPLOYED
  }

  // ------------------------------------------------------------ an uninterrupted call keeps the invariants

  ghost predicate Sound(b: Binding, t0: Namespace, sh: Shared, id: WorkerId, w: Worker) {
    && Durable(b, sh) && Local(b, sh, w)
    && Settled(b, t0, sh) && LocalSettled(b, t0, sh, w)
    && sh.lock == (if Locked(w) then Some(id) else None)
  }

  lemma SoundStep(b: Binding, t0: Namespace, sh: Shared, id: WorkerId, w: Worker)
    requires Sound(b, t0, sh, id, w) && !w.Done?
    ensures var next := Exec(b, sh, id, w); Sound(b, t0, next.sh, id, next.w)
  {
    hide Exec, View, Rows, Durable, Settled, Local, LocalSettled;
    ExecStep(b, sh, id, w);
    ExecSettled(b, t0, sh, id, w);
  }

  lemma SurvivorsSound(b: Binding, t0: Namespace, ls: seq<Label>, id: WorkerId, w: Worker)
    requires Quiet(ls) && (w == Deploy(DLoad) || w == Rollback(RBound))
    ensures Sound(b, t0, Survivors(After(b, t0, ls)), id, w)
  {
    hide View, Rows, Run, Durable, Settled;
    QuietlyReachable(b, t0, ls);
    LockFrame(b, t0, After(b, t0, ls), None, w);
    StartLocal(b, Survivors(After(b, t0, ls)));
    UnlockedSettled(b, t0, Survivors(After(b, t0, ls)), w);
  }

  // ------------------------------------------------------------ deployment

  /** The program points of a deployment that will succeed. */
  ghost predicate OnTrack(b: Binding, sh: Shared, w: Worker) {
    && sh.drops == 0
    && Deployable(sh.status)
    && match w
       case Deploy(DAcquire(st)) => st == sh.status
       case Deploy(DReadBefore(st)) => st == sh.status
       case Deploy(DIntent(st, _)) => st == sh.status
       case Deploy(DBegin(st, _, _, _)) => st == sh.status
       case Deploy(DLedgerIntent(_)) => sh.recovery.Some?
       case Deploy(DExecStart(_)) => sh.recovery.Some?
       case Deploy(DFinish) => sh.status == DEPLOYING
       case Deploy(_) => true
       case Rollback(_) => false
       case Releasing(result) => result == Succeeded && sh.status == DEPLOYED
       case Done(result) => result == Succeeded && sh.status == DEPLOYED
  }

  lemma OnTrackEntry(b: Binding, t0: Namespace, sh: Shared, id: WorkerId, pc: DeployPc)
    requires Sound(b, t0, sh, id, Deploy(pc)) && OnTrack(b, sh, Deploy(pc)) && DeployRank(pc) >= 17
    ensures var next := ExecDeploy(b, sh, id, pc); OnTrack(b, next.sh, next.w)
  {
    hide View, Rows, HasExactIndex, Settled;
    match pc
    case DLoad =>
    case DAcquire(_) =>
    case DReadBefore(_) =>
    case DIntent(_, _) =>
  }

  lemma OnTrackBegin(b: Binding, t0: Namespace, sh: Shared, id: WorkerId, pc: DeployPc)
    requires Sound(b, t0, sh, id, Deploy(pc)) && OnTrack(b, sh, Deploy(pc)) && pc.DBegin?
    ensures var next := ExecDeploy(b, sh, id, pc); OnTrack(b, next.sh, next.w)
  {
    hide View, Rows, HasExactIndex;
    HasExactView(sh.target, b.index);
  }

  lemma OnTrackExecute(b: Binding, t0: Namespace, sh: Shared, id: WorkerId, pc: DeployPc)
    requires Sound(b, t0, sh, id, Deploy(pc)) && OnTrack(b, sh, Deploy(pc)) && 9 <= DeployRank(pc) <= 15
    ensures var next := ExecDeploy(b, sh, id, pc); OnTrack(b, next.sh, next.w)
  {
    hide View, Rows, HasExactIndex, Settled;
    HasExactView(sh.target, b.index);
    match pc
    case DRecordIntent(_, _) =>
    case DLedgerIntent(_) =>
    case DExecStart(_) =>
    case DObserve(_, _) =>
    case DCreate(_) =>
    case DConfirm(_) =>
    case DReadAfter(_) =>
  }

  lemma OnTrackClose(b: Binding, t0: Namespace, sh: Shared, id: WorkerId, pc: DeployPc)
    requires Sound(b, t0, sh, id, Deploy(pc)) && OnTrack(b, sh, Deploy(pc)) && DeployRank(pc) <= 8
    ensures var next := ExecDeploy(b, sh, id, pc); OnTrack(b, next.sh, next.w)
  {
    hide View, Rows, HasExactIndex, Settled;
    match pc
    case DMark(_, _) =>
    case DLedgerApplied(_, _) =>
    case DReadStatus =>
    case DRecheck =>
    case DFinish =>
  }

  lemma OnTrackStep(b: Binding, t0: Namespace, sh: Shared, id: WorkerId, w: Worker)
    requires Sound(b, t0, sh, id, w) && OnTrack(b, sh, w) && !w.Done?
    ensures var next := Exec(b, sh, id, w); OnTrack(b, next.sh, next.w)
  {
    hide View, Rows, HasExactIndex, Durable, Settled, Local, LocalSettled, ExecDeploy;
    match w
    case Deploy(pc) =>
      if DeployRank(pc) >= 17 { OnTrackEntry(b, t0, sh, id, pc); }
      else if pc.DBegin? { OnTrackBegin(b, t0, sh, id, pc); }
      else if DeployRank(pc) >= 9 { OnTrackExecute(b, t0, sh, id, pc); }
      else { OnTrackClose(b, t0, sh, id, pc); }
    case Releasing(_) =>
  }

  lemma {:induction false} OnTrackSolo(b: Binding, t0: Namespace, sh: Shared, id: WorkerId, w: Worker)
    requires Sound(b, t0, sh, id, w) && OnTrack(b, sh, w)
    ensures var end := Solo(b, sh, id, w);
            && end.w == Done(Succeeded)
            && Sound(b, t0, end.sh, id, end.w) && OnTrack(b, end.sh, end.w)
    decreases Rank(w)
  {
    hide Exec, View, Sound, Rank;
    if !w.Done? {
      var next := Exec(b, sh, id, w);
      ExecDescends(b, sh, id, w);
      SoundStep(b, t0, sh, id, w);
      OnTrackStep(b, t0, sh, id, w);
      OnTrackSolo(b, t0, next.sh, id, next.w);
    }
  }

  /** The state in which every successful deployment of this run ends. */
  ghost predicate Deployed(b: Binding, t0: Namespace, sh: Shared) {
    && sh.target == Full(b, t0)
    && sh.artifact == Some(Artifact(b, Applied, View(t0), Some(View(Full(b, t0)))))
    && Confirmed(b, sh)
    && sh.status == DEPLOYED
    && sh.creates == (if Exact(b, t0) then 0 else 1) && sh.drops == 0
    && sh.lock == None
  }

  // ------------------------------------------------------------ the ledger of a deployment

  ghost function Owed(b: Binding, t0: Namespace, before: State, intent: bool, applied: bool): seq<Event> {
    (if intent then [DeploymentIntent(before)] else [])
    + (if applied then [DeploymentApplied(before, View(Full(b, t0)))] else [])
  }

  /** The ledger rows a deployment on track still appends. */
  ghost function Owes(b: Binding, t0: Namespace, sh: Shared, w: Worker): seq<Event> {
    match w
    case Deploy(DLoad) => Owed(b, t0, View(sh.target), sh.artifact.None?, !IsApplied(sh))
    case Deploy(DAcquire(_)) => Owed(b, t0, View(sh.target), sh.artifact.None?, !IsApplied(sh))
    case Deploy(DReadBefore(_)) => Owed(b, t0, View(sh.target), sh.artifact.None?, !IsApplied(sh))
    case Deploy(DIntent(_, before)) => Owed(b, t0, before, sh.artifact.None?, !IsApplied(sh))
    case Deploy(DBegin(_, before, applied, created)) => Owed(b, t0, before, created && !applied, !applied)
    case Deploy(DRecordIntent(before, created)) => Owed(b, t0, before, created, true)
    case Deploy(DLedgerIntent(before)) => Owed(b, t0, before, true, true)
    case Deploy(DExecStart(before)) => Owed(b, t0, before, false, true)
    case Deploy(DObserve(before, _)) => Owed(b, t0, before, false, true)
    case Deploy(DCreate(before)) => Owed(b, t0, before, false, true)
    case Deploy(DConfirm(before)) => Owed(b, t0, before, false, true)
    case Deploy(DReadAfter(before)) => Owed(b, t0, before, false, true)
    case Deploy(DMark(before, after)) => [DeploymentApplied(before, after)]
    case Deploy(DLedgerApplied(before, after)) => [DeploymentApplied(before, after)]
    case _ => []
  }

  ghost predicate Pays(b: Binding, t0: Namespace, sh: Shared, w: Worker, next: Next) {
    next.sh.ledger + Owes(b, t0, next.sh, next.w) == sh.ledger + Owes(b, t0, sh, w)
  }

  lemma PaysEntry(b: Binding, t0: Namespace, sh: Shared, id: WorkerId, pc: DeployPc)
    requires Sound(b, t0, sh, id, Deploy(pc)) && OnTrack(b, sh, Deploy(pc)) && DeployRank(pc) >= 17
    ensures Pays(b, t0, sh, Deploy(pc), ExecDeploy(b, sh, id, pc))
  {
    hide View, Rows, HasExactIndex, Settled, Full;
    match pc
    case DLoad =>
    case DAcquire(_) =>
    case DReadBefore(_) =>
    case DIntent(_, _) =>
  }

  lemma PaysBegin(b: Binding, t0: Namespace, sh: Shared, id: WorkerId, pc: DeployPc)
    requires pc.DBegin? && OnTrack(b, ExecDeploy(b, sh, id, pc).sh, ExecDeploy(b, sh, id, pc).w)
    ensures Pays(b, t0, sh, Deploy(pc), ExecDeploy(b, sh, id, pc))
  {
    hide View, Rows, HasExactIndex, Full, ValidTransition, Deployable;
  }

  lemma PaysIntent(b: Binding, t0: Namespace, sh: Shared, id: WorkerId, pc: DeployPc)
    requires pc.DRecordIntent? || pc.DLedgerIntent?
    ensures Pays(b, t0, sh, Deploy(pc), ExecDeploy(b, sh, id, pc))
  {
    hide View, Rows, HasExactIndex, Full;
    if pc.DLedgerIntent? {
      var e := DeploymentIntent(pc.before);
      assert sh.ledger + [e] + Owed(b, t0, pc.before, false, true) == sh.ledger + Owed(b, t0, pc.before, true, true);
    }
  }

  lemma PaysExecute(b: Binding, t0: Namespace, sh: Shared, id: WorkerId, pc: DeployPc)
    requires OnTrack(b, sh, Deploy(pc)) && (pc.DExecStart? || pc.DObserve? || pc.DCreate? || pc.DConfirm?)
    ensures Pays(b, t0, sh, Deploy(pc), ExecDeploy(b, sh, id, pc))
  {
    hide View, Rows, HasExactIndex, Full, Owed, Deployable;
    match pc
    case DExecStart(_) =>
    case DObserve(_, _) =>
    case DCreate(_) =>
    case DConfirm(_) =>
  }

  lemma PaysVerify(b: Binding, t0: Namespace, sh: Shared, id: WorkerId, pc: DeployPc)
    requires Sound(b, t0, sh, id, Deploy(pc)) && OnTrack(b, sh, Deploy(pc)) && pc.DReadAfter?
    ensures Pays(b, t0, sh, Deploy(pc), ExecDeploy(b, sh, id, pc))
  {
    hide View, Rows, HasExactIndex, Full, Durable;
    ExactTargetIsFull(b, t0, sh);
    HasExactView(sh.target, b.index);
  }

  lemma PaysClose(b: Binding, t0: Namespace, sh: Shared, id: WorkerId, pc: DeployPc)
    requires DeployRank(pc) <= 8 && OnTrack(b, sh, Deploy(pc))
    ensures Pays(b, t0, sh, Deploy(pc), ExecDeploy(b, sh, id, pc))
  {
    hide View, Rows, HasExactIndex, Full, Deployable;
    match pc
    case DMark(_, _) =>
    case DLedgerApplied(before, after) =>
      assert sh.ledger + [DeploymentApplied(before, after)] + [] == sh.ledger + [DeploymentApplied(before, after)];
    case DReadStatus =>
    case DRecheck =>
    case DFinish =>
  }

  lemma PaysStep(b: Binding, t0: Namespace, sh: Shared, id: WorkerId, w: Worker)
    requires Sound(b, t0, sh, id, w) && OnTrack(b, sh, w) && !w.Done?
    ensures Pays(b, t0, sh, w, Exec(b, sh, id, w))
  {
    hide View, Rows, HasExactIndex, Durable, Settled, Local, LocalSettled, ExecDeploy, Pays;
    match w
    case Deploy(pc) =>
      if DeployRank(pc) >= 17 { PaysEntry(b, t0, sh, id, pc); }
      else if pc.DBegin? { OnTrackBegin(b, t0, sh, id, pc); PaysBegin(b, t0, sh, id, pc); }
      else if DeployRank(pc) >= 14 { PaysIntent(b, t0, sh, id, pc); }
      else if DeployRank(pc) >= 10 { PaysExecute(b, t0, sh, id, pc); }
      else if pc.DReadAfter? { PaysVerify(b, t0, sh, id, pc); }
      else { PaysClose(b, t0, sh, id, pc); }
    case Releasing(_) => PaysRelease(b, t0, sh, id, w);
  }

  lemma PaysRelease(b: Binding, t0: Namespace, sh: Shared, id: WorkerId, w: Worker)
    requires w.Releasing?
    ensures Pays(b, t0, sh, w, Exec(b, sh, id, w))
  {
  }

  /** A deployment on track appends exactly the rows it owes. */
  lemma {:induction false} PaysSolo(b: Binding, t0: Namespace, sh: Shared, id: WorkerId, w: Worker)
    requires Sound(b, t0, sh, id, w) && OnTrack(b, sh, w)
    ensures Solo(b, sh, id, w).sh.ledger == sh.ledger + Owes(b, t0, sh, w)
    decreases Rank(w)
  {
    hide Exec, View, Sound, Rank;
    if w.Done? {
      assert sh.ledger + Owes(b, t0, sh, w) == sh.ledger;
    } else {
      var next := Exec(b, sh, id, w);
      ExecDescends(b, sh, id, w);
      SoundStep(b, t0, sh, id, w);
      OnTrackStep(b, t0, sh, id, w);
      PaysStep(b, t0, sh, id, w);
      PaysSolo(b, t0, next.sh, id, next.w);
    }
  }

  // ------------------------------------------------------------ refused deployments

  /** The program points of a deployment that will be refused. */
  ghost predicate OffTrack(b: Binding, sh0: Shared, sh: Shared, w: Worker) {
    && sh.target == sh0.target && sh.status == sh0.status && sh.record == sh0.record && sh.ledger == sh0.ledger
    && sh.creates == sh0.creates && sh.drops == sh0.drops
    && (!Deployable(sh.status) || sh.drops > 0)
    && match w
       case Deploy(DLoad) => true
       case Deploy(DAcquire(st)) => st == sh.status
       case Deploy(DReadBefore(st)) => st == sh.status
       case Deploy(DIntent(st, _)) => st == sh.status
       case Deploy(DBegin(st, _, _, _)) => st == sh.status
       case Deploy(_) => false
       case Rollback(_) => false
       case Releasing(result) => result == Failed
       case Done(result) => result == Failed
  }

  lemma OffTrackBegin(b: Binding, t0: Namespace, sh0: Shared, sh: Shared, id: WorkerId, pc: DeployPc)
    requires Sound(b, t0, sh, id, Deploy(pc)) && OffTrack(b, sh0, sh, Deploy(pc)) && pc.DBegin?
    ensures var next := ExecDeploy(b, sh, id, pc); OffTrack(b, sh0, next.sh, next.w)
  {
    hide View, Rows, HasExactIndex;
    HasExactView(sh.target, b.index);
  }

  lemma OffTrackStep(b: Binding, t0: Namespace, sh0: Shared, sh: Shared, id: WorkerId, w: Worker)
    requires Sound(b, t0, sh, id, w) && OffTrack(b, sh0, sh, w) && !w.Done?
    ensures var next := Exec(b, sh, id, w); OffTrack(b, sh0, next.sh, next.w)
  {
    hide View, Rows, HasExactIndex, Settled, LocalSettled;
    match w
    case Deploy(pc) =>
      if pc.DBegin? { OffTrackBegin(b, t0, sh0, sh, id, pc); }
    case Releasing(_) =>
  }

  lemma {:induction false} OffTrackSolo(b: Binding, t0: Namespace, sh0: Shared, sh: Shared, id: WorkerId, w: Worker)
    requires Sound(b, t0, sh, id, w) && OffTrack(b, sh0, sh, w)
    ensures var end := Solo(b, sh, id, w);
            && end.w == Done(Failed)
            && Sound(b, t0, end.sh, id, end.w) && OffTrack(b, sh0, end.sh, end.w)
    decreases Rank(w)
  {
    hide Exec, View, Sound, Rank;
    if !w.Done? {
      var next := Exec(b, sh, id, w);
      ExecDescends(b, sh, id, w);
      SoundStep(b, t0, sh, id, w);
      OffTrackStep(b, t0, sh0, sh, id, w);
      OffTrackSolo(b, t0, sh0, next.sh, id, next.w);
    }
  }

  /** Crash refinement of deployment.  Kill every worker after any history without outside
      writers; one uninterrupted call then succeeds exactly when the run may still be deployed
      and its index was not rolled back.  It ends in the state of a run that never crashed, with the
      ledger rows that were still owed: the intent if there was no artifact, the application if it
      was not APPLIED.  Otherwise it fails without touching the target, the ledger or the rollback row. */
  lemma {:induction false} CrashRefinement(b: Binding, t0: Namespace, ls: seq<Label>, id: WorkerId)
    requires Quiet(ls)
    ensures var sh := Survivors(After(b, t0, ls));
            var end := Solo(b, sh, id, Deploy(DLoad));
            && (end.w == Done(Succeeded) <==> Deployable(sh.status) && sh.drops == 0)
            && (end.w == Done(Succeeded) ==>
                  && Deployed(b, t0, end.sh) && end.sh.record == sh.record
                  && end.sh.ledger == sh.ledger + Owed(b, t0, View(sh.target), sh.artifact.None?, !IsApplied(sh)))
            && (end.w != Done(Succeeded) ==>
                  && end.w == Done(Failed)
                  && end.sh.target == sh.target && end.sh.ledger == sh.ledger && end.sh.record == sh.record
                  && end.sh.creates == sh.creates && end.sh.drops == sh.drops)
  {
    hide View, Rows, Run, Solo, Durable, Local, HonestLedger;
    var sh := Survivors(After(b, t0, ls));
    SurvivorsSound(b, t0, ls, id, Deploy(DLoad));
    var end := Solo(b, sh, id, Deploy(DLoad));
    if Deployable(sh.status) && sh.drops == 0 {
      OnTrackSolo(b, t0, sh, id, Deploy(DLoad));
      PaysSolo(b, t0, sh, id, Deploy(DLoad));
      DeployKeepsRecord(b, sh, id, Deploy(DLoad));
      DeployedEnd(b, t0, end.sh, id);
    } else {
      OffTrackSolo(b, t0, sh, sh, id, Deploy(DLoad));
    }
  }

  lemma DeployedEnd(b: Binding, t0: Namespace, sh: Shared, id: WorkerId)
    requires Sound(b, t0, sh, id, Done(Succeeded)) && OnTrack(b, sh, Done(Succeeded))
    ensures Deployed(b, t0, sh)
  {
    hide View, Rows, HonestLedger;
  }

  /** The run that never crashed ends there too, with an intent and an application in its ledger. */
  lemma {:induction false} NeverCrashed(b: Binding, t0: Namespace, id: WorkerId)
    ensures var end := Solo(b, Fresh(t0), id, Deploy(DLoad));
            && end.w == Done(Succeeded) && Deployed(b, t0, end.sh) && end.sh.record.None?
            && end.sh.ledger == [DeploymentIntent(View(t0)), DeploymentApplied(View(t0), View(Full(b, t0)))]
  {
    hide Solo, View, Full, Deployed;
    CrashRefinement(b, t0, [], id);
  }

  // ------------------------------------------------------------ rollback

  /** The program points of a rollback that will be applied and recorded. */
  ghost predicate Undoing(sh: Shared, w: Worker) {
    && IsApplied(sh)
    && !(sh.record.Some? && sh.record.value.RollbackBlocked?)
    && match w
       case Deploy(_) => false
       case Rollback(RBound) => !HasRolledBackRecord(sh)
       case Rollback(ROutcome(bound)) => bound.after.Some? && !HasRolledBackRecord(sh)
       case Rollback(RAcquire(bound)) => bound.after.Some? && !HasRolledBackRecord(sh)
       case Rollback(RReadState(bound)) => bound.after.Some? && !HasRolledBackRecord(sh)
       case Rollback(RReadRecord(bound, _)) => bound.after.Some? && !HasRolledBackRecord(sh)
       case Rollback(RIntent(_)) => !HasRolledBackRecord(sh)
       case Rollback(RBlock(_, _)) => false
       case Rollback(_) => true
       case Releasing(result) => result == ReportedRolledBack
       case Done(result) => result == ReportedRolledBack
  }

  lemma SafeToDrop(b: Binding, t0: Namespace, bound: Bound, s: State)
    requires bound.index == b.index && bound.candidateFingerprint == b.candidateFingerprint
    requires bound.after == Some(View(Full(b, t0))) && s == View(Full(b, t0))
    ensures SafeReason(b, bound, s).None?
  {
    hide Named, Listing;
    NamedView(Full(b, t0).indexes, b.index.name);
  }

  lemma UndoingRead(b: Binding, t0: Namespace, sh: Shared, id: WorkerId, pc: RollbackPc)
    requires Sound(b, t0, sh, id, Rollback(pc)) && Undoing(sh, Rollback(pc)) && pc.RReadRecord?
    ensures var next := ExecRollback(b, sh, id, pc); Undoing(next.sh, next.w)
  {
    hide View, Rows, SafeReason, Named;
    if sh.drops == 0 {
      SafeToDrop(b, t0, pc.bound, pc.state);
    }
  }

  lemma UndoingEntry(b: Binding, t0: Namespace, sh: Shared, id: WorkerId, pc: RollbackPc)
    requires Sound(b, t0, sh, id, Rollback(pc)) && Undoing(sh, Rollback(pc)) && RollbackRank(pc) >= 17
    ensures var next := ExecRollback(b, sh, id, pc); Undoing(next.sh, next.w)
  {
    hide View, Rows, Settled;
    match pc
    case RBound =>
    case ROutcome(_) =>
    case RAcquire(_) =>
    case RReadState(_) =>
  }

  lemma UndoingEffect(b: Binding, t0: Namespace, sh: Shared, id: WorkerId, pc: RollbackPc)
    requires Sound(b, t0, sh, id, Rollback(pc)) && Undoing(sh, Rollback(pc)) && RollbackRank(pc) <= 15
    ensures var next := ExecRollback(b, sh, id, pc); Undoing(next.sh, next.w)
  {
    hide View, Rows, WithoutOwnedIndex;
    match pc
    case RIntent(_) =>
    case RDrop(_, _) =>
    case RVerify(_, _) =>
    case RCheckLedger(_, _) =>
    case RLedger(_, _) =>
    case RFinal(_, _) =>
  }

  lemma UndoingStep(b: Binding, t0: Namespace, sh: Shared, id: WorkerId, w: Worker)
    requires Sound(b, t0, sh, id, w) && Undoing(sh, w) && !w.Done?
    ensures var next := Exec(b, sh, id, w); Undoing(next.sh, next.w)
  {
    hide View, Rows, Durable, Settled, Local, LocalSettled, ExecRollback;
    match w
    case Rollback(pc) =>
      if RollbackRank(pc) >= 17 { UndoingEntry(b, t0, sh, id, pc); }
      else if pc.RReadRecord? { UndoingRead(b, t0, sh, id, pc); }
      else { UndoingEffect(b, t0, sh, id, pc); }
    case Releasing(_) =>
  }

  lemma {:induction false} UndoingSolo(b: Binding, t0: Namespace, sh: Shared, id: WorkerId, w: Worker)
    requires Sound(b, t0, sh, id, w) && Undoing(sh, w)
    ensures var end := Solo(b, sh, id, w);
            && end.w == Done(ReportedRolledBack)
            && Sound(b, t0, end.sh, id, end.w) && Undoing(end.sh, end.w)
    decreases Rank(w)
  {
    hide Exec, View, Sound, Rank;
    if !w.Done? {
      var next := Exec(b, sh, id, w);
      ExecDescends(b, sh, id, w);
      SoundStep(b, t0, sh, id, w);
      UndoingStep(b, t0, sh, id, w);
      UndoingSolo(b, t0, next.sh, id, next.w);
    }
  }

  /** A terminal outcome is only reported again. */
  lemma {:induction false} ReportedAgain(b: Binding, sh: Shared, id: WorkerId)
    requires sh.artifact.Some? && sh.record.Some? && !sh.record.value.RollbackIntent?
    ensures Solo(b, sh, id, Rollback(RBound))
            == Next(sh, Done(if sh.record.value.RolledBack? then ReportedRolledBack
                             else ReportedBlocked(sh.record.value.reason)))
  {
    hide ExecDeploy;
    var a := sh.artifact.value;
    var bound := Bound(a.binding.candidateFingerprint, a.binding.index, a.after);
    assert Exec(b, sh, id, Rollback(RBound)) == Next(sh, Rollback(ROutcome(bound)));
    var end := RecordedOutcome(sh, bound);
    assert Exec(b, sh, id, Rollback(ROutcome(bound))) == Next(sh, end) && end.Done?;
    assert Solo(b, sh, id, end) == Next(sh, end);
    assert Solo(b, sh, id, Rollback(ROutcome(bound))) == Next(sh, end);
  }

  /** The rows after a rollback that came before the artifact was APPLIED. */
  function Barred(sh: Shared): Shared {
    sh.(record := Some(RollbackBlocked(ArtifactInvalid, View(sh.target))))
  }

  /** A rollback that comes before the artifact is APPLIED records a blocked outcome, and nothing else. */
  lemma {:induction false} EarlyRollback(b: Binding, sh: Shared, id: WorkerId)
    requires Durable(b, sh) && sh.lock.None?
    requires sh.artifact.Some? && !IsApplied(sh) && sh.record.None?
    ensures Solo(b, sh, id, Rollback(RBound)) == Next(Barred(sh), Done(ReportedBlocked(ArtifactInvalid)))
  {
    hide View, Rows, Rank;
    EarlyRollbackSteps(b, sh, id);
    hide Exec;
    var bound := Bound(b.candidateFingerprint, b.index, None);
    var s, mine := View(sh.target), sh.(lock := Some(id));
    var blocked, result := Barred(sh), ReportedBlocked(ArtifactInvalid);
    assert Solo(b, blocked, id, Done(result)) == Next(blocked, Done(result));
    assert Solo(b, Barred(mine), id, Releasing(result)) == Next(blocked, Done(result));
    assert Solo(b, mine, id, Rollback(RBlock(ArtifactInvalid, s))) == Next(blocked, Done(result));
    assert Solo(b, mine, id, Rollback(RReadRecord(bound, s))) == Next(blocked, Done(result));
    assert Solo(b, mine, id, Rollback(RReadState(bound))) == Next(blocked, Done(result));
    assert Solo(b, sh, id, Rollback(RAcquire(bound))) == Next(blocked, Done(result));
    assert Solo(b, sh, id, Rollback(ROutcome(bound))) == Next(blocked, Done(result));
  }

  lemma EarlyRollbackSteps(b: Binding, sh: Shared, id: WorkerId)
    requires Durable(b, sh) && sh.lock.None?
    requires sh.artifact.Some? && !IsApplied(sh) && sh.record.None?
    ensures var bound := Bound(b.candidateFingerprint, b.index, None);
            var s, mine := View(sh.target), sh.(lock := Some(id));
            var result := ReportedBlocked(ArtifactInvalid);
            && Exec(b, sh, id, Rollback(RBound)) == Next(sh, Rollback(ROutcome(bound)))
            && Exec(b, sh, id, Rollback(ROutcome(bound))) == Next(sh, Rollback(RAcquire(bound)))
            && Exec(b, sh, id, Rollback(RAcquire(bound))) == Next(mine, Rollback(RReadState(bound)))
            && Exec(b, mine, id, Rollback(RReadState(bound))) == Next(mine, Rollback(RReadRecord(bound, s)))
            && Exec(b, mine, id, Rollback(RReadRecord(bound, s))) == Next(mine, Rollback(RBlock(ArtifactInvalid, s)))
            && Exec(b, mine, id, Rollback(RBlock(ArtifactInvalid, s))) == Next(Barred(mine), Releasing(result))
            && Exec(b, Barred(mine), id, Releasing(result)) == Next(Barred(sh), Done(result))
  {
    hide View, Rows, ExecDeploy, Named;
  }

  /** A rollback before there is an artifact fails and records nothing. */
  lemma {:induction false} RollbackOfNothing(b: Binding, sh: Shared, id: WorkerId)
    requires sh.artifact.None?
    ensures Solo(b, sh, id, Rollback(RBound)) == Next(sh, Done(Failed))
  {
    hide ExecDeploy;
    assert Exec(b, sh, id, Rollback(RBound)) == Next(sh, Done(Failed));
    assert Solo(b, sh, id, Done(Failed)) == Next(sh, Done(Failed));
  }

  predicate Undoable(sh: Shared) {
    && sh.artifact.Some? && sh.artifact.value.status.Applied?
    && !(sh.record.Some? && sh.record.value.RollbackBlocked?)
  }

  /** The state in which every successful rollback of this run ends. */
  ghost predicate Undone(b: Binding, t0: Namespace, sh: Shared) {
    && sh.target == Bare(b, t0)
    && sh.record == Some(RolledBack(View(Full(b, t0)), View(Bare(b, t0))))
    && sh.drops == 1 && Rows(sh.ledger, true) == 1
    && sh.lock == None
  }

  /** Where a rollback that may not be applied ends: without an artifact it fails, a blocked outcome
      is reported again, and an artifact that is not APPLIED bars the run from being rolled back. */
  function Refused(sh: Shared): Next {
    if sh.artifact.None? then Next(sh, Done(Failed))
    else if sh.record.Some? && sh.record.value.RollbackBlocked? then
      Next(sh, Done(ReportedBlocked(sh.record.value.reason)))
    else Next(Barred(sh), Done(ReportedBlocked(ArtifactInvalid)))
  }

  /** Crash refinement of rollback.  Kill every worker after any history without outside
      writers; an uninterrupted rollback then reports ROLLED_BACK exactly when the artifact is
      APPLIED and no blocked outcome is recorded, with the index gone, one drop and one ledger
      row; otherwise it writes at most the row of a blocked outcome. */
  lemma {:induction false} RollbackRefinement(b: Binding, t0: Namespace, ls: seq<Label>, id: WorkerId)
    requires Quiet(ls)
    ensures var sh := Survivors(After(b, t0, ls));
            var end := Solo(b, sh, id, Rollback(RBound));
            && (end.w == Done(ReportedRolledBack) <==> Undoable(sh))
            && (Undoable(sh) ==> Undone(b, t0, end.sh))
            && (!Undoable(sh) ==> end == Refused(sh))
  {
    hide View, Rows, Run, Solo, HonestLedger, Local;
    var sh := Survivors(After(b, t0, ls));
    SurvivorsSound(b, t0, ls, id, Rollback(RBound));
    if sh.artifact.None? {
      RollbackOfNothing(b, sh, id);
    } else if sh.record.Some? && !sh.record.value.RollbackIntent? {
      ReportedAgain(b, sh, id);
    } else if IsApplied(sh) {
      UndoingSolo(b, t0, sh, id, Rollback(RBound));
      UndoneEnd(b, t0, Solo(b, sh, id, Rollback(RBound)).sh, id);
    } else {
      EarlyRollback(b, sh, id);
    }
  }

  lemma UndoneEnd(b: Binding, t0: Namespace, sh: Shared, id: WorkerId)
    requires Sound(b, t0, sh, id, Done(ReportedRolledBack)) && Undoing(sh, Done(ReportedRolledBack))
    ensures Undone(b, t0, sh)
  {
    hide View, Rows, HonestLedger;
  }
}
