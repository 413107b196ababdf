/** What the row and the ledger say about the hint, along every interleaving. */
module QuerySettingsEvidence {
  import opened Catalog
  import opened Lifecycle
  import opened QuerySettings
  import opened QuerySettingsInvariant

  /** The recorded after state is the hint last verified or, for an intent to roll back, last read. */
  ghost predicate RowEvidence(a: Action, sh: Shared) {
    sh.row.Some? ==>
      match sh.row.value.status
      case IntentRecorded => true
      case Applied => sh.row.value.after == Some(Intended(a))
      case RollbackIntent => sh.row.value.after == Some(Intended(a))
      case RolledBack => sh.row.value.after == Some(Unset)
  }

  /** A deployment starts from the free setting, unless it runs on a row under rollback. */
  ghost predicate Origin(a: Action, sh: Shared, before: Hint) {
    before == Unset || (before == Intended(a) && sh.redeploys > 0)
  }

  ghost predicate EventEvidence(a: Action, sh: Shared, e: Event) {
    match e
    case SettingsApplied(before, intended, after) =>
      Origin(a, sh, before) && intended == Intended(a) && after == Intended(a)
    case SettingsRolledBack(before, intended, after) => before == Intended(a) && intended == Unset && after == Unset
  }

  ghost predicate Evidence(a: Action, sh: Shared) {
    RowEvidence(a, sh) && forall e :: e in sh.ledger ==> EventEvidence(a, sh, e)
  }

  /** Without a redeployment a finished rollback stays finished. */
  ghost predicate StillUndone(sh: Shared) {
    sh.redeploys == 0 ==> Status(sh, RolledBack)
  }

  ghost predicate LocalEvidence(a: Action, sh: Shared, w: Worker) {
    match w
    case QSet(before) => before == Unset || (before == Intended(a) && Undoing(sh))
    case QObserve(before) => Origin(a, sh, before)
    case QMark(before, _) => Origin(a, sh, before)
    case QCheck(before, _) => Origin(a, sh, before)
    case QAppend(before, _) => Origin(a, sh, before)
    case KAcquire(d) => d.status.RolledBack? ==> StillUndone(sh)
    case KCurrent(d) => d.status.RolledBack? ==> StillUndone(sh)
    case KIntent(_, current) => current == Intended(a)
    case KCheck(_, _) => StillUndone(sh)
    case KAppend(_, _) => StillUndone(sh)
    case Releasing(ok, rollback) => ok && rollback ==> StillUndone(sh)
    case _ => true
  }

  /** What the facts outside the lock rely on. */
  ghost predicate Grows(sh: Shared, sh': Shared) {
    sh.redeploys <= sh'.redeploys && (StillUndone(sh) ==> StillUndone(sh'))
  }

  ghost predicate EvidentStep(a: Action, sh: Shared, next: Next) {
    Evidence(a, next.sh) && LocalEvidence(a, next.sh, next.w) && Grows(sh, next.sh)
  }

  lemma EventsKept(a: Action, sh: Shared, sh': Shared)
    requires Evidence(a, sh) && sh.redeploys <= sh'.redeploys
    ensures forall e :: e in sh.ledger ==> EventEvidence(a, sh', e)
  {
  }

  lemma DeployEvidenceStep(a: Action, h0: Hint, sh: Shared, id: WorkerId, w: Worker)
    requires Consistent(a, h0, sh) && Local(a, sh, w) && Evidence(a, sh) && LocalEvidence(a, sh, w)
    requires !w.Done? && !IsRollback(w)
    ensures EvidentStep(a, sh, Exec(a, sh, id, w))
  {
    hide Rows, EventEvidence;
    var next := Exec(a, sh, id, w);
    EventsKept(a, sh, next.sh);
    match w
    case QByKey(_) =>
    case QAppend(before, after) => AppliedEvent(a, next.sh, before);
    case _ =>
  }

  lemma AppliedEvent(a: Action, sh: Shared, before: Hint)
    requires Origin(a, sh, before)
    ensures EventEvidence(a, sh, SettingsApplied(before, Intended(a), Intended(a)))
  {
  }

  lemma RollbackEvidenceStep(a: Action, h0: Hint, sh: Shared, id: WorkerId, w: Worker)
    requires Consistent(a, h0, sh) && Local(a, sh, w) && Evidence(a, sh) && LocalEvidence(a, sh, w)
    requires !w.Done? && IsRollback(w)
    ensures EvidentStep(a, sh, Exec(a, sh, id, w))
  {
    hide Rows;
    match w
    case KCurrent(_) =>
    case _ =>
  }

  // ------------------------------------------------------------ whole runs

  ghost predicate Evident(a: Action, s: System) {
    Evidence(a, s.shared) && forall w :: w in s.workers ==> LocalEvidence(a, s.shared, s.workers[w])
  }

  lemma UnlockedEvident(a: Action, sh: Shared, sh': Shared, w: Worker)
    requires !Locked(w) && LocalEvidence(a, sh, w) && Grows(sh, sh')
    ensures LocalEvidence(a, sh', w)
  {
    hide StillUndone;
  }

  lemma LockFrame(a: Action, sh: Shared, lock: Option<WorkerId>, w: Worker)
    ensures Evidence(a, sh) ==> Evidence(a, sh.(lock := lock))
    ensures LocalEvidence(a, sh, w) ==> LocalEvidence(a, sh.(lock := lock), w)
  {
  }

  lemma InterruptedEvident(a: Action, sh: Shared, w: Worker)
    requires LocalEvidence(a, sh, w)
    ensures LocalEvidence(a, sh, Interrupted(w))
  {
  }

  lemma StepEvident(a: Action, h0: Hint, s: System, w: WorkerId)
    requires Inv(a, h0, s) && Evident(a, s) && !Idle(s, w)
    ensures Evident(a, Apply(a, s, Step(w)))
  {
    hide Exec, Rows, Consistent, Local, Evidence, LocalEvidence, Grows;
    ExecStep(a, h0, s.shared, w, s.workers[w]);
    if IsRollback(s.workers[w]) {
      RollbackEvidenceStep(a, h0, s.shared, w, s.workers[w]);
    } else {
      DeployEvidenceStep(a, h0, s.shared, w, s.workers[w]);
    }
    var sh' := Apply(a, s, Step(w)).shared;
    forall v | v in s.workers && v != w
      ensures LocalEvidence(a, sh', s.workers[v])
    {
      if Locked(s.workers[v]) {
        assert sh' == s.shared;
      } else {
        UnlockedEvident(a, s.shared, sh', s.workers[v]);
      }
    }
  }

  lemma ApplyEvident(a: Action, h0: Hint, s: System, l: Label)
    requires Inv(a, h0, s) && Evident(a, s)
    ensures Evident(a, Apply(a, s, l))
  {
    hide Exec, Inv, Evidence;
    match l
    case StartDeploy(_) =>
    case StartRollback(_) =>
    case Step(w) =>
      if !Idle(s, w) {
        StepEvident(a, h0, s, w);
      }
    case Abort(w) =>
      if w in s.workers {
        InterruptedEvident(a, s.shared, s.workers[w]);
      }
    case Crash(w) =>
      LockFrame(a, s.shared, None, Done(false, false));
      forall v | v in s.workers
        ensures LocalEvidence(a, Apply(a, s, Crash(w)).shared, s.workers[v])
      {
        LockFrame(a, s.shared, None, s.workers[v]);
      }
  }

  lemma {:induction false} RunEvident(a: Action, h0: Hint, s: System, ls: seq<Label>)
    requires Inv(a, h0, s) && Evident(a, s)
    ensures Evident(a, Run(a, s, ls))
    decreases |ls|
  {
    hide Apply, Inv, Evident;
    if ls != [] {
      ApplyKeeps(a, h0, s, ls[0]);
      ApplyEvident(a, h0, s, ls[0]);
      RunEvident(a, h0, Apply(a, s, ls[0]), ls[1..]);
    }
  }

  lemma {:induction false} ReachablyEvident(a: Action, h0: Hint, ls: seq<Label>)
    ensures Evident(a, Run(a, Initial(h0), ls))
  {
    hide Run;
    RunEvident(a, h0, Initial(h0), ls);
  }

  /** Along every run: an APPLIED row recorded the intended hint, a ROLLED_BACK one the free setting; every
      QUERY_SETTINGS_APPLIED row goes to the intended hint, from the free setting unless a row under
      rollback was redeployed; every QUERY_SETTINGS_ROLLED_BACK row goes from the intended hint back. */
  lemma {:induction false} RecordsAreTrue(a: Action, h0: Hint, ls: seq<Label>)
    ensures var sh := Run(a, Initial(h0), ls).shared;
            && (Status(sh, Applied) ==> sh.row.value.after == Some(Intended(a)))
            && (Status(sh, RolledBack) ==> sh.row.value.after == Some(Unset))
            && (forall e :: e in sh.ledger && e.SettingsApplied? ==>
                  && e.intended == e.after == Intended(a)
                  && (e.before == Unset || (e.before == Intended(a) && sh.redeploys > 0)))
            && (forall e :: e in sh.ledger && e.SettingsRolledBack? ==>
                  e == SettingsRolledBack(Intended(a), Unset, Unset))
  {
    hide Run;
    ReachablyEvident(a, h0, ls);
    var sh := Run(a, Initial(h0), ls).shared;
    forall e | e in sh.ledger
      ensures EventEvidence(a, sh, e)
    {
    }
  }
}
