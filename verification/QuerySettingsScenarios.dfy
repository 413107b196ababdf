/** A rollback that takes the lock only after the row it has read was deployed and rolled back again. */
module QuerySettingsScenarios {
  import opened Catalog
  import opened Lifecycle
  import opened QuerySettings
  import opened QuerySettingsInvariant
  import opened QuerySettingsOutcomes
  import opened QuerySettingsCalls
  import opened QuerySettingsTheorems

  /** A rollback reads the row; it takes the lock later. */
  function Waiting(id: WorkerId): seq<Label> {
    [StartRollback(id), Step(id)]
  }

  /** A rollback dies right after it restored the hint. */
  function DyingRollback(id: WorkerId): seq<Label> {
    [StartRollback(id), Step(id), Step(id), Step(id), Step(id), Step(id), Crash(id)]
  }

  function Stale(a: Action): seq<Label> {
    Deploying(1) + RollingBack(1) + Waiting(2) + Deploying(1) + DyingRollback(3) + Steps(2, CALL_STEPS)
  }

  function FinishedRow(a: Action): Row {
    Row(RolledBack, Unset, Intended(a), Some(Unset))
  }

  /** Deployed and rolled back once, by worker 1. */
  lemma {:induction false} UndoneOnce(a: Action)
    requires Presentable(a)
    ensures var s := After(a, Unset, Deploying(1) + RollingBack(1));
            && s.shared.hint == Unset && s.shared.row == Some(FinishedRow(a)) && s.shared.lock.None?
            && s.workers == map[1 := Done(true, true)]
  {
    hide Solo, Run, Rows, Exec;
    var start := Initial(Unset);
    CallIsSolo(a, start, 1, StartDeploy(1), QAcquire);
    DeployRecovers(a, Unset, [], 1);
    assert After(a, Unset, []) == start by { PathIsRun(a, [], [start]); }
    var s1 := After(a, Unset, Deploying(1));
    RollbackRecovers(a, Unset, Deploying(1), 1);
    assert Survivors(s1.shared) == s1.shared;
    CallIsSolo(a, s1, 1, StartRollback(1), KById);
    RunConcat(a, start, Deploying(1), RollingBack(1));
    assert s1.workers[1 := Done(true, true)] == map[1 := Done(true, true)];
  }

  lemma {:induction false} WaitingReads(a: Action, s: System)
    requires Idle(s, 2) && s.shared.row == Some(FinishedRow(a))
    ensures Run(a, s, Waiting(2)) == s.(workers := s.workers[2 := KAcquire(FinishedRow(a))])
  {
    hide Run;
    var started := s.(workers := s.workers[2 := KById]);
    var waiting := s.(workers := s.workers[2 := KAcquire(FinishedRow(a))]);
    assert started.workers[2 := KAcquire(FinishedRow(a))] == waiting.workers;
    assert Apply(a, s, StartRollback(2)) == started && Apply(a, started, Step(2)) == waiting;
    hide Apply;
    PathIsRun(a, Waiting(2), [s, started, waiting]);
  }

  /** A deployment of the finished row writes the hint again. */
  lemma {:induction false} Redeployed(a: Action, s: System)
    requires Presentable(a) && Idle(s, 1) && s.shared.row == Some(FinishedRow(a))
    requires s.shared.hint == Unset && s.shared.lock.None?
    ensures var end := Run(a, s, Deploying(1));
            && end.workers == s.workers[1 := Done(true, false)]
            && end.shared.hint == Intended(a) && end.shared.lock.None?
            && end.shared.row == Some(Row(Applied, Unset, Intended(a), Some(Intended(a))))
  {
    hide Solo, Run, Claimed;
    CallIsSolo(a, s, 1, StartDeploy(1), QAcquire);
    DeployOutcome(a, s.shared, 1);
    ObservedDeployment(a, s.shared.(lock := Some(1)), 1, Unset);
  }

  ghost predicate FreshlyApplied(a: Action, sh: Shared) {
    && sh.row == Some(Row(Applied, Unset, Intended(a), Some(Intended(a))))
    && sh.hint == Intended(a) && sh.lock.None?
  }

  /** The rows after the intent and after the hint is gone. */
  function HalfUndone(sh: Shared): Shared
    requires sh.row.Some?
  {
    sh.(lock := Some(3), row := Some(sh.row.value.(status := RollbackIntent)))
  }

  function Cleared(sh: Shared): Shared {
    sh.(hint := Unset, clears := sh.clears + 1)
  }

  lemma {:induction false} RollbackSteps(a: Action, sh: Shared, d: Row)
    requires FreshlyApplied(a, sh) && sh.row == Some(d)
    ensures var mine, half := sh.(lock := Some(3)), HalfUndone(sh);
            && Exec(a, sh, 3, KById) == Next(sh, KAcquire(d))
            && Exec(a, sh, 3, KAcquire(d)) == Next(mine, KCurrent(d))
            && Exec(a, mine, 3, KCurrent(d)) == Next(mine, KIntent(d, Intended(a)))
            && Exec(a, mine, 3, KIntent(d, Intended(a))) == Next(half, KSet(d))
            && Exec(a, half, 3, KSet(d)) == Next(Cleared(half), KObserve(d))
  {
    hide Rows;
  }

  /** The dying rollback passes through these systems. */
  function DyingRollbackPath(a: Action, s: System): seq<System>
    requires s.shared.row.Some?
  {
    var sh, ws, d := s.shared, s.workers, s.shared.row.value;
    var mine, half := sh.(lock := Some(3)), HalfUndone(sh);
    [s, System(sh, ws[3 := KById]), System(sh, ws[3 := KAcquire(d)]), System(mine, ws[3 := KCurrent(d)]),
     System(mine, ws[3 := KIntent(d, Intended(a))]), System(half, ws[3 := KSet(d)]),
     System(Cleared(half), ws[3 := KObserve(d)]), System(Cleared(half).(lock := None), ws)]
  }

  lemma {:induction false} DyingRollbackEnds(a: Action, s: System)
    requires 3 !in s.workers && FreshlyApplied(a, s.shared)
    ensures var path := DyingRollbackPath(a, s);
            Apply(a, path[0], StartRollback(3)) == path[1] && Apply(a, path[6], Crash(3)) == path[7]
  {
    var d := s.shared.row.value;
    assert s.workers[3 := KObserve(d)] - {3} == s.workers;
  }

  lemma {:induction false} DyingRollbackSteps(a: Action, s: System)
    requires FreshlyApplied(a, s.shared)
    ensures var path := DyingRollbackPath(a, s);
            && Apply(a, path[1], Step(3)) == path[2] && Apply(a, path[2], Step(3)) == path[3]
            && Apply(a, path[3], Step(3)) == path[4] && Apply(a, path[4], Step(3)) == path[5]
            && Apply(a, path[5], Step(3)) == path[6]
  {
    hide Rows, Exec, Apply, HalfUndone, Cleared;
    var sh, ws, d := s.shared, s.workers, s.shared.row.value;
    var mine, half := sh.(lock := Some(3)), HalfUndone(sh);
    RollbackSteps(a, sh, d);
    Stepped(a, sh, ws, 3, KById, Next(sh, KAcquire(d)));
    Stepped(a, sh, ws, 3, KAcquire(d), Next(mine, KCurrent(d)));
    Stepped(a, mine, ws, 3, KCurrent(d), Next(mine, KIntent(d, Intended(a))));
    Stepped(a, mine, ws, 3, KIntent(d, Intended(a)), Next(half, KSet(d)));
    Stepped(a, half, ws, 3, KSet(d), Next(Cleared(half), KObserve(d)));
  }

  lemma {:induction false} RollbackDies(a: Action, s: System)
    requires 3 !in s.workers && FreshlyApplied(a, s.shared)
    ensures var end := Run(a, s, DyingRollback(3));
            && end.workers == s.workers && end.shared.lock.None? && end.shared.hint == Unset
            && end.shared.row == Some(Row(RollbackIntent, Unset, Intended(a), Some(Intended(a))))
  {
    hide Run, Apply;
    DyingRollbackEnds(a, s);
    DyingRollbackSteps(a, s);
    PathIsRun(a, DyingRollback(3), DyingRollbackPath(a, s));
  }

  lemma {:induction false} WaiterReturns(a: Action, s: System)
    requires 2 in s.workers && s.workers[2] == KAcquire(FinishedRow(a))
    requires s.shared.lock.None? && s.shared.hint == Unset && Status(s.shared, RollbackIntent)
    ensures var end := Run(a, s, Steps(2, CALL_STEPS));
            && 2 in end.workers && end.workers[2] == Done(true, true)
            && end.shared.row == s.shared.row && end.shared.hint == Unset
  {
    hide Solo, Claimed;
    var d := FinishedRow(a);
    SoloIsRun(a, s, 2, CALL_STEPS);
    Unfold(a, s.shared, 2, KAcquire(d));
    ObservedRollback(a, s.shared.(lock := Some(2)), 2, d);
  }

  /** A rollback that read a finished row returns success although the row, deployed and half rolled
      back again before it took the lock, is only a ROLLBACK_INTENT. */
  lemma {:induction false} StaleRollback(a: Action)
    requires Presentable(a)
    ensures var s := After(a, Unset, Stale(a));
            && 2 in s.workers && s.workers[2] == Done(true, true)
            && Status(s.shared, RollbackIntent) && s.shared.hint == Unset == s.shared.row.value.before
  {
    hide Run, Rows, Solo, Exec, Waiting, Deploying, DyingRollback, RollingBack, Steps;
    var start := Initial(Unset);
    var l1 := Deploying(1) + RollingBack(1);
    var l2 := l1 + Waiting(2);
    var l3 := l2 + Deploying(1);
    var l4 := l3 + DyingRollback(3);
    UndoneOnce(a);
    var s1 := Run(a, start, l1);
    WaitingReads(a, s1);
    RunConcat(a, start, l1, Waiting(2));
    var s2 := Run(a, start, l2);
    Redeployed(a, s2);
    RunConcat(a, start, l2, Deploying(1));
    var s3 := Run(a, start, l3);
    RollbackDies(a, s3);
    RunConcat(a, start, l3, DyingRollback(3));
    var s4 := Run(a, start, l4);
    WaiterReturns(a, s4);
    RunConcat(a, start, l4, Steps(2, CALL_STEPS));
  }
}
