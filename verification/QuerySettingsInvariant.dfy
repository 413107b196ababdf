/** What every interleaving of query-hint deployments and rollbacks keeps. */
module QuerySettingsInvariant {
  import opened Catalog
  import opened Lifecycle
  import opened QuerySettings

  ghost predicate Status(sh: Shared, status: RowStatus) {
    sh.row.Some? && sh.row.value.status == status
  }

  /** How often the hint was written when no deployment followed a rollback. */
  ghost predicate WriteOnce(a: Action, sh: Shared) {
    && (Status(sh, IntentRecorded) ==> sh.clears == 0 && sh.sets == (if sh.hint == Unset then 0 else 1))
    && (Status(sh, Applied) ==> sh.clears == 0 && sh.sets == 1)
    && (Status(sh, RollbackIntent) ==> sh.sets == 1 && sh.clears == (if sh.hint == Unset then 1 else 0))
    && (Status(sh, RolledBack) ==> sh.sets == 1 && sh.clears == 1 && sh.hint == Unset)
  }

  ghost predicate Consistent(a: Action, h0: Hint, sh: Shared) {
    && Rows(sh.ledger, false) <= 1 && Rows(sh.ledger, true) <= 1
    && (sh.row.None? ==> sh.hint == h0 && sh.ledger == [] && sh.sets == 0 && sh.clears == 0 && sh.redeploys == 0)
    && (sh.row.Some? ==>
          && h0 == Unset
          && sh.row.value.before == Unset && sh.row.value.intended == Intended(a)
          && (sh.hint == Unset || sh.hint == Intended(a)))
    && (Status(sh, Applied) ==> sh.hint == Intended(a))
    && (sh.redeploys == 0 ==> WriteOnce(a, sh))
  }

  /** The row a rollback read before taking the lock. */
  ghost predicate Owned(a: Action, sh: Shared, d: Row) {
    && d.before == Unset && d.intended == Intended(a) && !d.status.IntentRecorded?
    && sh.row.Some? && !sh.row.value.status.IntentRecorded?
  }

  ghost predicate Local(a: Action, sh: Shared, w: Worker) {
    match w
    case QByKey(current) => current == sh.hint
    case QIntent(current) => sh.row.None? && current == sh.hint == Unset
    case QSet(before) => sh.row.Some? && !Status(sh, Applied) && (Status(sh, IntentRecorded) ==> sh.hint == Unset)
    case QObserve(_) => sh.row.Some? && sh.hint == Intended(a) && (sh.redeploys == 0 ==> !Undoing(sh))
    case QMark(_, observed) =>
      sh.row.Some? && sh.hint == observed == Intended(a) && (sh.redeploys == 0 ==> !Undoing(sh))
    case QCheck(_, after) => Status(sh, Applied) && after == Intended(a)
    case QAppend(_, after) => Status(sh, Applied) && after == Intended(a) && Rows(sh.ledger, false) == 0
    case KAcquire(d) => Owned(a, sh, d)
    case KCurrent(d) => Owned(a, sh, d)
    case KIntent(d, current) => Owned(a, sh, d) && sh.hint == Intended(a)
    case KSet(d) => Owned(a, sh, d) && sh.hint == Intended(a) && Status(sh, RollbackIntent)
    case KObserve(d) => Owned(a, sh, d) && sh.hint == Unset && Undoing(sh)
    case KMark(d, observed) => Owned(a, sh, d) && sh.hint == observed == Unset && Undoing(sh)
    case KCheck(d, after) => Owned(a, sh, d) && sh.hint == after == Unset && Undoing(sh)
    case KAppend(d, after) => Owned(a, sh, d) && sh.hint == after == Unset && Undoing(sh) && Rows(sh.ledger, true) == 0
    case Releasing(ok, rollback) => ok ==> Returned(a, sh, rollback)
    case _ => true
  }

  /** What a successful call has established when it returns. */
  ghost predicate Returned(a: Action, sh: Shared, rollback: bool) {
    if rollback then
      sh.row.Some? && sh.hint == sh.row.value.before == Unset && Undoing(sh) && Rows(sh.ledger, true) == 1
    else
      sh.hint == Intended(a) && Status(sh, Applied) && Rows(sh.ledger, false) == 1
  }

  lemma {:induction false} RowsAppend(ledger: seq<Event>, e: Event, rollback: bool)
    ensures Rows(ledger + [e], rollback)
            == Rows(ledger, rollback) + (if e.SettingsRolledBack? == rollback then 1 else 0)
  {
    assert (ledger + [e])[..|ledger|] == ledger;
  }

  /** A row that left INTENT_RECORDED never returns to it, and ledger rows stay. */
  ghost predicate Later(sh: Shared, sh': Shared) {
    && (sh.row.Some? ==>
          sh'.row.Some? && (!sh.row.value.status.IntentRecorded? ==> !sh'.row.value.status.IntentRecorded?))
    && sh.ledger <= sh'.ledger
    && sh.redeploys <= sh'.redeploys
  }

  ghost predicate GoodStep(a: Action, h0: Hint, sh: Shared, id: WorkerId, w: Worker, next: Next) {
    && Consistent(a, h0, next.sh) && Local(a, next.sh, next.w) && Later(sh, next.sh)
    && next.sh.lock == (if Locked(next.w) then Some(id) else if w.Releasing? then None else sh.lock)
    && (!Locked(w) ==> next.sh == sh.(lock := next.sh.lock))
    && (!Locked(w) && Locked(next.w) ==> sh.lock.None?)
    && (Locked(w) ==> (Locked(next.w) <==> !w.Releasing?))
  }

  lemma DeployEntryStep(a: Action, h0: Hint, sh: Shared, id: WorkerId, w: Worker)
    requires Consistent(a, h0, sh) && Local(a, sh, w) && (Locked(w) ==> sh.lock == Some(id))
    requires w.QAcquire? || w.QIndexes? || w.QCurrent? || w.QByKey? || w.QIntent?
    ensures GoodStep(a, h0, sh, id, w, Exec(a, sh, id, w))
  {
    hide Rows;
    match w
    case QAcquire =>
    case QIndexes =>
    case QCurrent =>
    case QByKey(_) =>
    case QIntent(_) =>
  }

  lemma DeployEffectStep(a: Action, h0: Hint, sh: Shared, id: WorkerId, w: Worker)
    requires Consistent(a, h0, sh) && Local(a, sh, w) && sh.lock == Some(id)
    requires w.QSet? || w.QObserve? || w.QMark? || w.QCheck? || w.QAppend?
    ensures GoodStep(a, h0, sh, id, w, Exec(a, sh, id, w))
  {
    hide Rows;
    match w
    case QSet(_) =>
    case QObserve(_) =>
    case QMark(_, _) =>
    case QCheck(_, _) =>
    case QAppend(before, after) =>
      RowsAppend(sh.ledger, SettingsApplied(before, Intended(a), after), true);
      RowsAppend(sh.ledger, SettingsApplied(before, Intended(a), after), false);
  }

  lemma RollbackEntryStep(a: Action, h0: Hint, sh: Shared, id: WorkerId, w: Worker)
    requires Consistent(a, h0, sh) && Local(a, sh, w) && (Locked(w) ==> sh.lock == Some(id))
    requires w.KById? || w.KAcquire? || w.KCurrent? || w.KIntent?
    ensures GoodStep(a, h0, sh, id, w, Exec(a, sh, id, w))
  {
    hide Rows;
    match w
    case KById =>
    case KAcquire(_) =>
    case KCurrent(_) =>
    case KIntent(_, _) =>
  }

  lemma RollbackEffectStep(a: Action, h0: Hint, sh: Shared, id: WorkerId, w: Worker)
    requires Consistent(a, h0, sh) && Local(a, sh, w) && sh.lock == Some(id)
    requires w.KSet? || w.KObserve? || w.KMark? || w.KCheck? || w.KAppend?
    ensures GoodStep(a, h0, sh, id, w, Exec(a, sh, id, w))
  {
    hide Rows;
    match w
    case KSet(_) =>
    case KObserve(_) =>
    case KMark(_, _) =>
    case KCheck(_, _) =>
    case KAppend(d, after) =>
      RowsAppend(sh.ledger, SettingsRolledBack(d.intended, d.before, after), true);
      RowsAppend(sh.ledger, SettingsRolledBack(d.intended, d.before, after), false);
  }

  lemma ExecStep(a: Action, h0: Hint, sh: Shared, id: WorkerId, w: Worker)
    requires Consistent(a, h0, sh) && Local(a, sh, w) && (Locked(w) ==> sh.lock == Some(id)) && !w.Done?
    ensures GoodStep(a, h0, sh, id, w, Exec(a, sh, id, w))
  {
    hide Rows, Consistent, Exec;
    if w.Releasing? { ReleaseStep(a, h0, sh, id, w); }
    else if w.QAcquire? || w.QIndexes? || w.QCurrent? || w.QByKey? || w.QIntent? { DeployEntryStep(a, h0, sh, id, w); }
    else if !IsRollback(w) { DeployEffectStep(a, h0, sh, id, w); }
    else if w.KById? || w.KAcquire? || w.KCurrent? || w.KIntent? { RollbackEntryStep(a, h0, sh, id, w); }
    else { RollbackEffectStep(a, h0, sh, id, w); }
  }

  lemma ReleaseStep(a: Action, h0: Hint, sh: Shared, id: WorkerId, w: Worker)
    requires Consistent(a, h0, sh) && w.Releasing? && sh.lock == Some(id)
    ensures GoodStep(a, h0, sh, id, w, Exec(a, sh, id, w))
  {
    hide Rows;
  }

  // ------------------------------------------------------------ whole runs

  ghost predicate Exclusive(s: System) {
    && (forall w :: w in s.workers && Locked(s.workers[w]) ==> s.shared.lock == Some(w))
    && (s.shared.lock.Some? ==> s.shared.lock.value in s.workers && Locked(s.workers[s.shared.lock.value]))
  }

  ghost predicate Inv(a: Action, h0: Hint, s: System) {
    && Consistent(a, h0, s.shared)
    && Exclusive(s)
    && (forall w :: w in s.workers ==> Local(a, s.shared, s.workers[w]))
  }

  lemma UnlockedStable(a: Action, sh: Shared, sh': Shared, w: Worker)
    requires !Locked(w) && Local(a, sh, w) && Later(sh, sh')
    ensures Local(a, sh', w)
  {
  }

  lemma StepKeeps(a: Action, h0: Hint, s: System, w: WorkerId)
    requires Inv(a, h0, s)
    ensures Inv(a, h0, Apply(a, s, Step(w)))
  {
    hide Exec, Rows, Consistent, Local;
    if !Idle(s, w) {
      ExecStep(a, h0, s.shared, w, s.workers[w]);
      var sh' := Apply(a, s, Step(w)).shared;
      forall v | v in s.workers && v != w
        ensures Local(a, sh', s.workers[v])
        ensures Locked(s.workers[v]) ==> sh' == s.shared
      {
        if !Locked(s.workers[v]) {
          UnlockedStable(a, s.shared, sh', s.workers[v]);
        }
      }
    }
  }

  lemma CrashKeeps(a: Action, h0: Hint, s: System, w: WorkerId)
    requires Inv(a, h0, s)
    ensures Inv(a, h0, Apply(a, s, Crash(w)))
  {
    hide Rows, Exec;
    assert forall v :: v in s.workers && v != w ==> Local(a, Apply(a, s, Crash(w)).shared, s.workers[v]);
  }

  lemma ApplyKeeps(a: Action, h0: Hint, s: System, l: Label)
    requires Inv(a, h0, s)
    ensures Inv(a, h0, Apply(a, s, l))
  {
    hide Rows, Exec, Consistent;
    match l
    case StartDeploy(_) =>
    case StartRollback(_) =>
    case Step(w) => StepKeeps(a, h0, s, w);
    case Abort(_) =>
    case Crash(w) => CrashKeeps(a, h0, s, w);
  }

  lemma {:induction false} RunKeeps(a: Action, h0: Hint, s: System, ls: seq<Label>)
    requires Inv(a, h0, s)
    ensures Inv(a, h0, Run(a, s, ls))
    decreases |ls|
  {
    hide Apply, Inv;
    if ls != [] {
      ApplyKeeps(a, h0, s, ls[0]);
      RunKeeps(a, h0, Apply(a, s, ls[0]), ls[1..]);
    }
  }

  lemma {:induction false} Reachable(a: Action, h0: Hint, ls: seq<Label>)
    ensures Inv(a, h0, Run(a, Initial(h0), ls))
  {
    RunKeeps(a, h0, Initial(h0), ls);
  }
}
