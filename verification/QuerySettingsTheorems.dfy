/** The promises of the query-hint protocol, over all runs. */
module QuerySettingsTheorems {
  import opened Catalog
  import opened Lifecycle
  import opened QuerySettings
  import opened QuerySettingsInvariant
  import opened QuerySettingsCalls
  import opened QuerySettingsEvidence
  import opened QuerySettingsOutcomes

  function After(a: Action, h0: Hint, ls: seq<Label>): System {
    Run(a, Initial(h0), ls)
  }

  /** Exactly once: whenever a deployment returns, the hint is the intended one, its row says so and one
      APPLIED row is in the ledger; whenever a rollback returns, the hint is the recorded before state
      and the one ROLLED_BACK row says so.  The row itself is then ROLLED_BACK unless a row under rollback
      was deployed again (`StaleRollback` shows that it need not be then). */
  lemma ReturnsExactlyOnce(a: Action, h0: Hint, ls: seq<Label>, w: WorkerId)
    requires var s := After(a, h0, ls); w in s.workers && s.workers[w].Releasing? && s.workers[w].ok
    ensures var s := After(a, h0, ls);
            var sh := s.shared;
            if s.workers[w].rollback then
              && sh.row.Some? && sh.hint == sh.row.value.before == h0 && Rows(sh.ledger, true) == 1
              && (sh.redeploys == 0 ==> sh.row == Some(Row(RolledBack, h0, Intended(a), Some(h0))))
              && (forall e :: e in sh.ledger && e.SettingsRolledBack? ==> e == SettingsRolledBack(Intended(a), h0, h0))
            else
              && sh.hint == Intended(a) && sh.row == Some(Row(Applied, h0, Intended(a), Some(Intended(a))))
              && Rows(sh.ledger, false) == 1
              && (forall e :: e in sh.ledger && e.SettingsApplied? ==>
                    e.intended == e.after == Intended(a) && (sh.redeploys == 0 ==> e.before == h0))
  {
    hide Run, Rows;
    Reachable(a, h0, ls);
    ReachablyEvident(a, h0, ls);
    RecordsAreTrue(a, h0, ls);
    var s := After(a, h0, ls);
    assert LocalEvidence(a, s.shared, s.workers[w]);
    hide Evidence;
  }

  /** A hint that was there before any intent is never touched, and nothing is recorded about it. */
  lemma HumanHintKept(a: Action, h0: Hint, ls: seq<Label>)
    requires h0 != Unset
    ensures var sh := After(a, h0, ls).shared;
            sh.hint == h0 && sh.row.None? && sh.ledger == [] && sh.sets == 0 && sh.clears == 0
  {
    hide Run, Rows;
    Reachable(a, h0, ls);
  }

  /** Unless a deployment runs on a row that is being rolled back, the hint is written at most
      once and cleared at most once, and a ROLLED_BACK row means the hint is gone. */
  lemma WrittenOnce(a: Action, h0: Hint, ls: seq<Label>)
    requires After(a, h0, ls).shared.redeploys == 0
    ensures var sh := After(a, h0, ls).shared;
            && sh.sets <= 1 && sh.clears <= sh.sets
            && (Status(sh, Applied) ==> sh.hint == Intended(a))
            && (Status(sh, RolledBack) ==> sh.hint == Unset)
  {
    hide Run, Rows;
    Reachable(a, h0, ls);
  }

  /** Each write of the hint is issued under the lock, after the row that makes it recoverable: the intended
      hint on a row that is not APPLIED, the before state on one whose rollback is intended.  Nothing else
      changes the hint. */
  lemma WritesAreGuarded(a: Action, h0: Hint, ls: seq<Label>, l: Label)
    ensures var s := After(a, h0, ls);
            var sh, sh' := s.shared, Apply(a, s, l).shared;
            && (sh'.hint != sh.hint ==> sh'.sets + sh'.clears == sh.sets + sh.clears + 1)
            && (sh'.sets != sh.sets ==>
                  && l.Step? && sh.lock == Some(l.w) && sh'.sets == sh.sets + 1 && sh'.clears == sh.clears
                  && sh'.hint == Intended(a) && sh.row.Some? && !Status(sh, Applied) && sh'.row == sh.row)
            && (sh'.clears != sh.clears ==>
                  && l.Step? && sh.lock == Some(l.w) && sh'.clears == sh.clears + 1 && sh'.sets == sh.sets
                  && Status(sh, RollbackIntent) && sh'.hint == sh.row.value.before && sh'.row == sh.row)
  {
    hide Run, Rows;
    Reachable(a, h0, ls);
    var s := After(a, h0, ls);
    if l.Step? && !Idle(s, l.w) {
      WritingStep(a, s.shared, l.w, s.workers[l.w]);
      hide Exec;
      assert Local(a, s.shared, s.workers[l.w]);
    }
  }

  lemma WritingStep(a: Action, sh: Shared, id: WorkerId, w: Worker)
    ensures var sh' := Exec(a, sh, id, w).sh;
            && (!w.QSet? && !w.KSet? ==> sh'.hint == sh.hint && sh'.sets == sh.sets && sh'.clears == sh.clears)
            && (w.QSet? ==>
                  sh'.hint == Intended(a) && sh'.sets == sh.sets + 1 && sh'.clears == sh.clears && sh'.row == sh.row)
            && (w.KSet? ==>
                  sh'.hint == w.deployment.before && sh'.clears == sh.clears + 1 && sh'.sets == sh.sets
                  && sh'.row == sh.row)
  {
    hide Rows;
  }

  /** The first steps of a deployment up to its hint write, and then its death. */
  function DyingDeployment(id: WorkerId): seq<Label> {
    [StartDeploy(id), Step(id), Step(id), Step(id), Step(id), Step(id), Crash(id)]
  }

  lemma Stepped(a: Action, sh: Shared, ws: map<WorkerId, Worker>, id: WorkerId, w: Worker, next: Next)
    requires !w.Done? && Exec(a, sh, id, w) == next
    ensures Apply(a, System(sh, ws[id := w]), Step(id)) == System(next.sh, ws[id := next.w])
  {
    hide Exec;
    assert ws[id := w][id := next.w] == ws[id := next.w];
  }

  /** The dying deployment passes through these systems. */
  function DyingPath(a: Action, s: System, id: WorkerId): seq<System> {
    var sh, ws := s.shared, s.workers;
    var mine, written := sh.(lock := Some(id)), SetTx(a, sh).(lock := Some(id));
    [s, System(sh, ws[id := QAcquire]), System(mine, ws[id := QIndexes]), System(mine, ws[id := QCurrent]),
     System(mine, ws[id := QByKey(Unset)]), System(mine, ws[id := QSet(Unset)]),
     System(written, ws[id := QObserve(Unset)]), System(SetTx(a, sh), ws - {id})]
  }

  lemma DyingEnds(a: Action, s: System, id: WorkerId)
    requires Idle(s, id) && s.shared.lock.None?
    ensures var path := DyingPath(a, s, id);
            Apply(a, path[0], StartDeploy(id)) == path[1] && Apply(a, path[6], Crash(id)) == path[7]
  {
  }

  lemma DyingPathSteps(a: Action, s: System, id: WorkerId)
    requires Status(s.shared, RolledBack) && s.shared.hint == Unset && s.shared.lock.None? && Presentable(a)
    ensures var path := DyingPath(a, s, id);
            && Apply(a, path[1], Step(id)) == path[2] && Apply(a, path[2], Step(id)) == path[3]
            && Apply(a, path[3], Step(id)) == path[4] && Apply(a, path[4], Step(id)) == path[5]
            && Apply(a, path[5], Step(id)) == path[6]
  {
    hide Rows, Exec, Apply, Idle, Presentable, Status;
    var sh, ws := s.shared, s.workers;
    RedeploySteps(a, sh, id);
    var mine, written := sh.(lock := Some(id)), SetTx(a, sh).(lock := Some(id));
    Stepped(a, sh, ws, id, QAcquire, Next(mine, QIndexes));
    Stepped(a, mine, ws, id, QIndexes, Next(mine, QCurrent));
    Stepped(a, mine, ws, id, QCurrent, Next(mine, QByKey(Unset)));
    Stepped(a, mine, ws, id, QByKey(Unset), Next(mine, QSet(Unset)));
    Stepped(a, mine, ws, id, QSet(Unset), Next(written, QObserve(Unset)));
  }

  /** Deploying a rolled-back row records no new intent: dying right after the write leaves a
      ROLLED_BACK row with the hint set, and a rollback of that row is then refused. */
  lemma {:induction false} CrashedRedeploy(a: Action, s: System, id: WorkerId)
    requires Idle(s, id) && s.shared.lock.None? && Presentable(a)
    requires Status(s.shared, RolledBack) && s.shared.hint == s.shared.row.value.before == Unset
    ensures var end := Run(a, s, DyingDeployment(id));
            && Status(end.shared, RolledBack) && end.shared.hint == Intended(a) != Unset
            && Solo(a, end.shared, id, KById) == Next(end.shared, Done(false, true))
  {
    hide Rows, Exec, Solo, Run, Apply, Idle;
    DyingEnds(a, s, id);
    DyingPathSteps(a, s, id);
    PathIsRun(a, DyingDeployment(id), DyingPath(a, s, id));
    RefusedRollback(a, SetTx(a, s.shared), id);
  }

  /** And this happens: deploy, roll back, deploy again and die. */
  lemma {:induction false} RedeployIsNotCrashSafe(a: Action, id: WorkerId)
    requires Presentable(a)
    ensures var sh := After(a, Unset, Deploying(id) + RollingBack(id) + DyingDeployment(id)).shared;
            && Status(sh, RolledBack) && sh.hint == Intended(a) != Unset
            && Solo(a, sh, id, KById) == Next(sh, Done(false, true))
  {
    hide Solo, Run, Rows, Exec;
    var ls := Deploying(id);
    CallIsSolo(a, Initial(Unset), id, StartDeploy(id), QAcquire);
    DeployRecovers(a, Unset, [], id);
    assert After(a, Unset, []) == Initial(Unset) by { PathIsRun(a, [], [Initial(Unset)]); }
    var s1 := After(a, Unset, ls);
    RollbackMarks(a, Unset, ls, id);
    RollbackRecovers(a, Unset, ls, id);
    assert Survivors(s1.shared) == s1.shared;
    CallIsSolo(a, s1, id, StartRollback(id), KById);
    RunConcat(a, Initial(Unset), ls, RollingBack(id));
    var s2 := After(a, Unset, ls + RollingBack(id));
    CrashedRedeploy(a, s2, id);
    RunConcat(a, Initial(Unset), ls + RollingBack(id), DyingDeployment(id));
  }

  /** A rollback that found its row APPLIED leaves it ROLLED_BACK. */
  ghost predicate Marking(sh: Shared, w: Worker) {
    match w
    case KById => Status(sh, Applied)
    case KAcquire(d) => d.status.Applied?
    case KCurrent(d) => d.status.Applied?
    case KCheck(_, _) => Status(sh, RolledBack)
    case KAppend(_, _) => Status(sh, RolledBack)
    case Releasing(ok, rollback) => rollback && (ok ==> Status(sh, RolledBack))
    case Done(ok, rollback) => rollback && (ok ==> Status(sh, RolledBack))
    case _ => IsRollback(w)
  }

  lemma {:induction false} MarkingSolo(a: Action, h0: Hint, sh: Shared, id: WorkerId, w: Worker)
    requires Sound(a, h0, sh, id, w) && Marking(sh, w)
    ensures Marking(Solo(a, sh, id, w).sh, Solo(a, sh, id, w).w)
    decreases Rank(w)
  {
    hide Rows, Consistent, Rank, Exec;
    if !w.Done? {
      var next := Exec(a, sh, id, w);
      ExecDescends(a, sh, id, w);
      SoundStep(a, h0, sh, id, w);
      MarkingStep(a, sh, id, w);
      MarkingSolo(a, h0, next.sh, id, next.w);
    }
  }

  lemma MarkingStep(a: Action, sh: Shared, id: WorkerId, w: Worker)
    requires Local(a, sh, w) && Marking(sh, w) && !w.Done?
    ensures var next := Exec(a, sh, id, w); Marking(next.sh, next.w)
  {
    hide Rows;
  }

  lemma {:induction false} RollbackMarks(a: Action, h0: Hint, ls: seq<Label>, id: WorkerId)
    requires Status(After(a, h0, ls).shared, Applied)
    ensures var end := Solo(a, Survivors(After(a, h0, ls).shared), id, KById);
            end.w == Done(true, true) ==> Status(end.sh, RolledBack)
  {
    hide Solo, Run, Rows;
    SurvivorsSound(a, h0, ls, id, KById);
    MarkingSolo(a, h0, Survivors(After(a, h0, ls).shared), id, KById);
  }

  lemma RedeploySteps(a: Action, sh: Shared, id: WorkerId)
    requires Status(sh, RolledBack) && sh.hint == Unset && sh.lock.None? && Presentable(a)
    ensures var mine := sh.(lock := Some(id));
            && Exec(a, sh, id, QAcquire) == Next(mine, QIndexes)
            && Exec(a, mine, id, QIndexes) == Next(mine, QCurrent)
            && Exec(a, mine, id, QCurrent) == Next(mine, QByKey(Unset))
            && Exec(a, mine, id, QByKey(Unset)) == Next(mine, QSet(Unset))
            && Exec(a, mine, id, QSet(Unset)) == Next(SetTx(a, sh).(lock := Some(id)), QObserve(Unset))
  {
    hide Rows;
  }

  lemma {:induction false} RefusedRollback(a: Action, sh: Shared, id: WorkerId)
    requires Status(sh, RolledBack) && sh.hint != sh.row.value.before && sh.lock.None?
    ensures Solo(a, sh, id, KById) == Next(sh, Done(false, true))
  {
    hide Rows, Rank;
    var d, locked := sh.row.value, sh.(lock := Some(id));
    assert Exec(a, sh, id, KById) == Next(sh, KAcquire(d));
    assert Exec(a, sh, id, KAcquire(d)) == Next(locked, KCurrent(d));
    assert Exec(a, locked, id, KCurrent(d)) == Next(locked, Releasing(false, true));
    assert Exec(a, locked, id, Releasing(false, true)) == Next(sh, Done(false, true));
    assert Solo(a, sh, id, Done(false, true)) == Next(sh, Done(false, true));
    assert Solo(a, locked, id, Releasing(false, true)) == Next(sh, Done(false, true));
    assert Solo(a, locked, id, KCurrent(d)) == Next(sh, Done(false, true));
    assert Solo(a, sh, id, KAcquire(d)) == Next(sh, Done(false, true));
  }

  // ------------------------------------------------------------ recovery

  ghost predicate Sound(a: Action, h0: Hint, sh: Shared, id: WorkerId, w: Worker) {
    Consistent(a, h0, sh) && Local(a, sh, w) && sh.lock == (if Locked(w) then Some(id) else None)
  }

  lemma SoundStep(a: Action, h0: Hint, sh: Shared, id: WorkerId, w: Worker)
    requires Sound(a, h0, sh, id, w) && !w.Done?
    ensures var next := Exec(a, sh, id, w); Sound(a, h0, next.sh, id, next.w)
  {
    hide Rows, Exec, Consistent, Local;
    ExecStep(a, h0, sh, id, w);
  }

  predicate Presentable(a: Action) {
    forall n :: n in a.allowed ==> n in a.indexNames
  }

  /** The program points of a call whose outcome is already decided to be `ok`. */
  ghost predicate Bound(a: Action, sh: Shared, w: Worker, ok: bool, rollback: bool) {
    match w
    case QAcquire => !rollback && (ok <==> Presentable(a) && (sh.row.Some? || sh.hint == Unset))
    case QIndexes => !rollback && (ok <==> Presentable(a) && (sh.row.Some? || sh.hint == Unset))
    case QCurrent => !rollback && (ok <==> sh.row.Some? || sh.hint == Unset)
    case QByKey(_) => !rollback && (ok <==> sh.row.Some? || sh.hint == Unset)
    case KById => rollback && (ok <==> Restorable(sh))
    case KAcquire(d) => rollback && sh.row == Some(d) && (ok <==> Restorable(sh))
    case KCurrent(d) => rollback && sh.row == Some(d) && (ok <==> Restorable(sh))
    case Releasing(o, r) => o == ok && r == rollback && (ok ==> Returned(a, sh, rollback))
    case Done(o, r) => o == ok && r == rollback && (ok ==> Returned(a, sh, rollback))
    case _ => ok && rollback == IsRollback(w)
  }

  /** The rows a rollback can undo: every applied or interrupted one, and a finished one whose hint is gone. */
  ghost predicate Restorable(sh: Shared) {
    sh.row.Some? && !sh.row.value.status.IntentRecorded? && (sh.row.value.status.RolledBack? ==> sh.hint == Unset)
  }

  lemma DeployBoundStep(a: Action, h0: Hint, sh: Shared, id: WorkerId, w: Worker, ok: bool, rollback: bool)
    requires Sound(a, h0, sh, id, w) && Bound(a, sh, w, ok, rollback) && !w.Done? && !IsRollback(w)
    ensures var next := Exec(a, sh, id, w); Bound(a, next.sh, next.w, ok, rollback)
  {
    hide Rows;
    match w
    case QByKey(_) =>
    case QAppend(before, after) => RowsAppend(sh.ledger, SettingsApplied(before, Intended(a), after), false);
    case _ =>
  }

  lemma RollbackBoundStep(a: Action, h0: Hint, sh: Shared, id: WorkerId, w: Worker, ok: bool, rollback: bool)
    requires Sound(a, h0, sh, id, w) && Bound(a, sh, w, ok, rollback) && !w.Done? && IsRollback(w)
    ensures var next := Exec(a, sh, id, w); Bound(a, next.sh, next.w, ok, rollback)
  {
    hide Rows;
    match w
    case KCurrent(_) =>
    case KAppend(d, after) => RowsAppend(sh.ledger, SettingsRolledBack(d.intended, d.before, after), true);
    case _ =>
  }

  lemma {:induction false} BoundSolo(a: Action, h0: Hint, sh: Shared, id: WorkerId, w: Worker, ok: bool, rollback: bool)
    requires Sound(a, h0, sh, id, w) && Bound(a, sh, w, ok, rollback)
    ensures var end := Solo(a, sh, id, w);
            end.w == Done(ok, rollback) && end.sh.lock.None? && (ok ==> Returned(a, end.sh, rollback))
    decreases Rank(w)
  {
    hide Rows, Exec, Consistent, Local, Rank;
    if !w.Done? {
      var next := Exec(a, sh, id, w);
      ExecDescends(a, sh, id, w);
      SoundStep(a, h0, sh, id, w);
      if IsRollback(w) {
        RollbackBoundStep(a, h0, sh, id, w, ok, rollback);
      } else {
        DeployBoundStep(a, h0, sh, id, w, ok, rollback);
      }
      BoundSolo(a, h0, next.sh, id, next.w, ok, rollback);
    }
  }

  function Survivors(sh: Shared): Shared {
    sh.(lock := None)
  }

  lemma SurvivorsSound(a: Action, h0: Hint, ls: seq<Label>, id: WorkerId, w: Worker)
    requires w == QAcquire || w == KById
    ensures Sound(a, h0, Survivors(After(a, h0, ls).shared), id, w)
  {
    hide Run, Rows;
    Reachable(a, h0, ls);
  }

  /** The row a successful deployment leaves. */
  lemma {:induction false} DeployedRow(a: Action, h0: Hint, ls: seq<Label>, id: WorkerId)
    requires var sh := Survivors(After(a, h0, ls).shared); Solo(a, sh, id, QAcquire).w == Done(true, false)
    ensures var sh := Survivors(After(a, h0, ls).shared);
            Solo(a, sh, id, QAcquire).sh.row == Some(Row(Applied, h0, Intended(a), Some(Intended(a))))
  {
    hide Run, Rows, Solo, Claimed;
    var sh := Survivors(After(a, h0, ls).shared);
    Reachable(a, h0, ls);
    RecordsAreTrue(a, h0, ls);
    QuerySettingsOutcomes.DeployOutcome(a, sh, id);
    ObservedDeployment(a, sh.(lock := Some(id)), id, sh.hint);
  }

  /** The row a successful rollback leaves: ROLLED_BACK, whatever died before. */
  lemma {:induction false} UndoneRow(a: Action, h0: Hint, ls: seq<Label>, id: WorkerId)
    requires var sh := Survivors(After(a, h0, ls).shared); Solo(a, sh, id, KById).w == Done(true, true)
    ensures var sh := Survivors(After(a, h0, ls).shared);
            Solo(a, sh, id, KById).sh.row == Some(Row(RolledBack, h0, Intended(a), Some(h0)))
  {
    hide Run, Rows, Solo, Claimed;
    var sh := Survivors(After(a, h0, ls).shared);
    Reachable(a, h0, ls);
    RecordsAreTrue(a, h0, ls);
    QuerySettingsOutcomes.RollbackOutcome(a, sh, id);
    if sh.row.Some? {
      ObservedRollback(a, sh.(lock := Some(id)), id, sh.row.value);
    }
  }

  /** A rollback goes by the row it read before the lock.  When it succeeds, the row is then ROLLED_BACK
      unless it had read a finished rollback of a row that is no longer ROLLED_BACK. */
  lemma {:induction false} UndoneExactly(a: Action, sh: Shared, id: WorkerId, d: Row)
    requires sh.row.Some? && Solo(a, sh, id, KCurrent(d)).w == Done(true, true)
    ensures Status(Solo(a, sh, id, KCurrent(d)).sh, RolledBack) <==> (d.status.RolledBack? ==> Status(sh, RolledBack))
  {
    hide Solo, Claimed;
    ObservedRollback(a, sh, id, d);
  }

  /** After any crashes an uninterrupted deployment succeeds exactly when the allowed indexes are
      present and the setting is the optimizer's own or free. */
  lemma {:induction false} DeployRecovers(a: Action, h0: Hint, ls: seq<Label>, id: WorkerId)
    ensures var sh := Survivors(After(a, h0, ls).shared);
            var end := Solo(a, sh, id, QAcquire);
            && (end.w == Done(true, false) <==> Presentable(a) && (sh.row.Some? || sh.hint == Unset))
            && (end.w == Done(true, false) ==>
                  && Returned(a, end.sh, false)
                  && end.sh.row == Some(Row(Applied, h0, Intended(a), Some(Intended(a)))))
            && end.sh.lock.None?
  {
    hide Run, Rows, Solo;
    var sh := Survivors(After(a, h0, ls).shared);
    SurvivorsSound(a, h0, ls, id, QAcquire);
    if Solo(a, sh, id, QAcquire).w == Done(true, false) {
      DeployedRow(a, h0, ls, id);
    }
    BoundSolo(a, h0, sh, id, QAcquire, Presentable(a) && (sh.row.Some? || sh.hint == Unset), false);
  }

  /** After any crashes an uninterrupted rollback succeeds exactly on the restorable rows. */
  lemma {:induction false} RollbackRecovers(a: Action, h0: Hint, ls: seq<Label>, id: WorkerId)
    ensures var sh := Survivors(After(a, h0, ls).shared);
            var end := Solo(a, sh, id, KById);
            && (end.w == Done(true, true) <==> Restorable(sh))
            && (end.w == Done(true, true) ==>
                  && Returned(a, end.sh, true)
                  && end.sh.row == Some(Row(RolledBack, h0, Intended(a), Some(h0))))
            && end.sh.lock.None?
  {
    hide Run, Rows, Solo;
    var sh := Survivors(After(a, h0, ls).shared);
    SurvivorsSound(a, h0, ls, id, KById);
    if Solo(a, sh, id, KById).w == Done(true, true) {
      UndoneRow(a, h0, ls, id);
    }
    BoundSolo(a, h0, sh, id, KById, Restorable(sh), true);
  }
}
