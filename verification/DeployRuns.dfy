/** The invariants lifted from one worker's step to whole runs of the system. */
module DeployRuns {
  import opened Catalog
  import opened Lifecycle
  import opened DeployProtocol
  import opened DeployInvariant
  import opened SettledInvariant

  /** The lock is held exactly by the one worker inside its locked region. */
  ghost predicate Exclusive(s: System) {
    && (forall w :: w in s.workers && Locked(s.workers[w]) ==> s.shared.lock == Some(w))
    && (s.shared.lock.Some? ==> s.shared.lock.value in s.workers && Locked(s.workers[s.shared.lock.value]))
  }

  ghost predicate Inv(b: Binding, s: System) {
    && Durable(b, s.shared)
    && Exclusive(s)
    && (forall w :: w in s.workers ==> Local(b, s.shared, s.workers[w]))
  }

  ghost predicate QuietInv(b: Binding, t0: Namespace, s: System) {
    && Settled(b, t0, s.shared)
    && (forall w :: w in s.workers ==> LocalSettled(b, t0, s.shared, s.workers[w]))
  }

  /** Outside the lock a worker relies only on facts nobody takes back. */
  lemma UnlockedStable(b: Binding, sh: Shared, sh': Shared, w: Worker)
    requires !Locked(w) && Local(b, sh, w) && Later(sh, sh')
    ensures Local(b, sh', w)
  {
  }

  lemma UnlockedSettled(b: Binding, t0: Namespace, sh: Shared, w: Worker)
    requires !Locked(w)
    ensures LocalSettled(b, t0, sh, w)
  {
  }

  /** Facts about a worker do not mention who holds the lock. */
  lemma LockFrame(b: Binding, t0: Namespace, sh: Shared, lock: Option<WorkerId>, w: Worker)
    ensures Local(b, sh, w) <==> Local(b, sh.(lock := lock), w)
    ensures LocalSettled(b, t0, sh, w) <==> LocalSettled(b, t0, sh.(lock := lock), w)
    ensures Durable(b, sh) <==> Durable(b, sh.(lock := lock))
    ensures Settled(b, t0, sh) <==> Settled(b, t0, sh.(lock := lock))
  {
    hide View, Rows, HonestLedger;
  }

  lemma ExecStep(b: Binding, sh: Shared, id: WorkerId, w: Worker)
    requires Durable(b, sh) && Local(b, sh, w) && !w.Done?
    requires Locked(w) ==> sh.lock == Some(id)
    ensures var next := Exec(b, sh, id, w);
            && Durable(b, next.sh) && Local(b, next.sh, next.w) && Later(sh, next.sh)
            && next.sh.lock == (if w.Releasing? then None else if Locked(next.w) then Some(id) else sh.lock)
            && (!Locked(w) ==> next.sh == sh.(lock := next.sh.lock))
            && (!Locked(w) && Locked(next.w) ==> sh.lock.None?)
            && (Locked(w) ==> (Locked(next.w) <==> !w.Releasing?))
  {
    hide ExecDeploy, ExecRollback, View, Rows;
    match w
    case Deploy(pc) => DeployStep(b, sh, id, pc);
    case Rollback(pc) => RollbackStep(b, sh, id, pc);
    case Releasing(_) => LockFrame(b, sh.target, sh, None, w);
  }

  lemma ExecSettled(b: Binding, t0: Namespace, sh: Shared, id: WorkerId, w: Worker)
    requires Durable(b, sh) && Local(b, sh, w) && Settled(b, t0, sh) && LocalSettled(b, t0, sh, w) && !w.Done?
    requires Locked(w) ==> sh.lock == Some(id)
    ensures SettledStep(b, t0, Exec(b, sh, id, w))
  {
    hide ExecDeploy, ExecRollback, View, Rows, Durable;
    match w
    case Deploy(pc) => SettledDeployStep(b, t0, sh, id, pc);
    case Rollback(pc) => SettledRollbackStep(b, t0, sh, id, pc);
    case Releasing(_) => LockFrame(b, t0, sh, None, w);
  }

  /** A lock holder other than the mover sees nothing change but, at most, nothing. */
  lemma OthersKeep(b: Binding, s: System, w: WorkerId, v: WorkerId)
    requires Inv(b, s) && w in s.workers && !s.workers[w].Done? && v in s.workers && v != w
    ensures var sh' := Apply(b, s, Step(w)).shared;
            && Local(b, sh', s.workers[v])
            && (Locked(s.workers[v]) ==> sh' == s.shared)
  {
    hide ExecDeploy, ExecRollback, View, Rows, Durable, DeployLocal, RollbackLocal, Truthful;
    ExecStep(b, s.shared, w, s.workers[w]);
    if !Locked(s.workers[v]) {
      UnlockedStable(b, s.shared, Apply(b, s, Step(w)).shared, s.workers[v]);
    }
  }

  lemma StepKeeps(b: Binding, s: System, w: WorkerId)
    requires Inv(b, s)
    ensures Inv(b, Apply(b, s, Step(w))) && Later(s.shared, Apply(b, s, Step(w)).shared)
  {
    hide ExecDeploy, ExecRollback, View, Rows, Durable, DeployLocal, RollbackLocal, Truthful;
    if Idle(s, w) {
      assert Later(s.shared, s.shared);
    } else {
      ExecStep(b, s.shared, w, s.workers[w]);
      forall v | v in s.workers && v != w
        ensures Local(b, Apply(b, s, Step(w)).shared, s.workers[v])
        ensures Locked(s.workers[v]) ==> Apply(b, s, Step(w)).shared == s.shared
      {
        OthersKeep(b, s, w, v);
      }
    }
  }

  lemma StepSettles(b: Binding, t0: Namespace, s: System, w: WorkerId)
    requires Inv(b, s) && QuietInv(b, t0, s)
    ensures QuietInv(b, t0, Apply(b, s, Step(w)))
  {
    hide ExecDeploy, ExecRollback, View, Rows, Durable, Settled, Local, LocalSettled;
    if !Idle(s, w) {
      ExecSettled(b, t0, s.shared, w, s.workers[w]);
      var s' := Apply(b, s, Step(w));
      forall v | v in s.workers && v != w
        ensures LocalSettled(b, t0, s'.shared, s.workers[v])
      {
        OthersKeep(b, s, w, v);
        if !Locked(s.workers[v]) {
          UnlockedSettled(b, t0, s'.shared, s.workers[v]);
        }
      }
    }
  }

  lemma InterruptedKeeps(b: Binding, t0: Namespace, sh: Shared, w: Worker)
    ensures Local(b, sh, w) ==> Local(b, sh, Interrupted(w))
    ensures LocalSettled(b, t0, sh, w) ==> LocalSettled(b, t0, sh, Interrupted(w))
    ensures Locked(Interrupted(w)) <==> Locked(w)
  {
    hide DeployLocal, RollbackLocal, DeploySettled, RollbackSettled;
  }

  lemma AdvanceDurable(b: Binding, sh: Shared, next: RunStatus)
    requires Durable(b, sh) && ValidTransition(sh.status, next) && next != DEPLOYING && next != DEPLOYED
    ensures var sh' := sh.(status := next);
            Durable(b, sh') && Later(sh, sh') && next != APPROVED
  {
    hide View, Rows;
  }

  lemma AdvanceLocal(b: Binding, sh: Shared, next: RunStatus, w: Worker)
    requires Local(b, sh, w) && next != APPROVED
    ensures Local(b, sh.(status := next), w)
  {
    hide View, Rows;
  }

  lemma AdvanceSettled(b: Binding, t0: Namespace, sh: Shared, next: RunStatus, w: Worker)
    ensures var sh' := sh.(status := next);
            && (Settled(b, t0, sh) ==> Settled(b, t0, sh'))
            && (LocalSettled(b, t0, sh, w) ==> LocalSettled(b, t0, sh', w))
  {
    hide View, Rows, HonestLedger;
  }

  lemma OutsideKeeps(b: Binding, sh: Shared, t: Namespace, w: Worker)
    ensures var sh' := sh.(target := t);
            && Later(sh, sh')
            && (Durable(b, sh) ==> Durable(b, sh'))
            && (Local(b, sh, w) ==> Local(b, sh', w))
  {
    hide View, Rows;
  }

  lemma StartLocal(b: Binding, sh: Shared)
    ensures Local(b, sh, Deploy(DLoad)) && Local(b, sh, Rollback(RBound))
  {
  }

  /** Every label keeps the invariant and takes nothing back. */
  lemma ApplyKeeps(b: Binding, s: System, l: Label)
    requires Inv(b, s)
    ensures Inv(b, Apply(b, s, l)) && Later(s.shared, Apply(b, s, l).shared)
  {
    hide Exec, View, Rows, Durable, DeployLocal, RollbackLocal;
    assert Later(s.shared, s.shared);
    StartLocal(b, s.shared);
    match l
    case StartDeploy(_) =>
    case StartRollback(_) =>
    case Step(w) => StepKeeps(b, s, w);
    case Abort(w) =>
      if w in s.workers {
        InterruptedKeeps(b, s.shared.target, s.shared, s.workers[w]);
      }
    case Crash(w) => CrashKeeps(b, s, w);
    case Advance(next) =>
      if ValidTransition(s.shared.status, next) && next != DEPLOYING && next != DEPLOYED {
        AdvanceDurable(b, s.shared, next);
        forall w | w in s.workers
          ensures Local(b, s.shared.(status := next), s.workers[w])
        {
          AdvanceLocal(b, s.shared, next, s.workers[w]);
        }
      }
    case Outside(t) =>
      forall w | w in s.workers
        ensures Local(b, s.shared.(target := t), s.workers[w])
      {
        OutsideKeeps(b, s.shared, t, s.workers[w]);
      }
      OutsideKeeps(b, s.shared, t, Done(Failed));
  }

  lemma CrashKeeps(b: Binding, s: System, w: WorkerId)
    requires Inv(b, s)
    ensures Inv(b, Apply(b, s, Crash(w))) && Later(s.shared, Apply(b, s, Crash(w)).shared)
  {
    hide View, Rows, Durable, Local, Settled, LocalSettled;
    forall v | v in s.workers && v != w
      ensures Local(b, Unlocked(s.shared, w), s.workers[v])
    {
      LockFrame(b, s.shared.target, s.shared, None, s.workers[v]);
    }
    LockFrame(b, s.shared.target, s.shared, None, Done(Failed));
  }

  lemma ApplySettles(b: Binding, t0: Namespace, s: System, l: Label)
    requires Inv(b, s) && QuietInv(b, t0, s) && !l.Outside?
    ensures QuietInv(b, t0, Apply(b, s, l))
  {
    hide Exec, View, Rows, Durable, Settled, Local, DeploySettled, RollbackSettled;
    match l
    case StartDeploy(_) =>
      assert LocalSettled(b, t0, s.shared, Deploy(DLoad)) by { UnlockedSettled(b, t0, s.shared, Deploy(DLoad)); }
    case StartRollback(_) =>
      assert LocalSettled(b, t0, s.shared, Rollback(RBound)) by { UnlockedSettled(b, t0, s.shared, Rollback(RBound)); }
    case Step(w) => StepSettles(b, t0, s, w);
    case Abort(w) =>
      if w in s.workers {
        InterruptedKeeps(b, t0, s.shared, s.workers[w]);
      }
    case Crash(w) =>
      forall v | v in s.workers && v != w
        ensures LocalSettled(b, t0, Unlocked(s.shared, w), s.workers[v])
      {
        LockFrame(b, t0, s.shared, None, s.workers[v]);
      }
      LockFrame(b, t0, s.shared, None, Done(Failed));
    case Advance(next) =>
      forall w | w in s.workers
        ensures LocalSettled(b, t0, s.shared.(status := next), s.workers[w])
      {
        AdvanceSettled(b, t0, s.shared, next, s.workers[w]);
      }
      AdvanceSettled(b, t0, s.shared, next, Done(Failed));
  }

  lemma {:induction false} RunKeeps(b: Binding, s: System, ls: seq<Label>)
    requires Inv(b, s)
    ensures Inv(b, Run(b, s, ls)) && Later(s.shared, Run(b, s, ls).shared)
    decreases |ls|
  {
    hide Apply, Inv, View;
    if ls == [] {
      assert Later(s.shared, s.shared);
    } else {
      ApplyKeeps(b, s, ls[0]);
      RunKeeps(b, Apply(b, s, ls[0]), ls[1..]);
      LaterTransitive(s.shared, Apply(b, s, ls[0]).shared, Run(b, s, ls).shared);
    }
  }

  lemma {:induction false} RunSettles(b: Binding, t0: Namespace, s: System, ls: seq<Label>)
    requires Inv(b, s) && QuietInv(b, t0, s) && Quiet(ls)
    ensures QuietInv(b, t0, Run(b, s, ls))
    decreases |ls|
  {
    hide Apply, Inv, QuietInv, View;
    if ls != [] {
      ApplyKeeps(b, s, ls[0]);
      ApplySettles(b, t0, s, ls[0]);
      RunSettles(b, t0, Apply(b, s, ls[0]), ls[1..]);
    }
  }

  /** Every reachable system satisfies the row invariant. */
  lemma {:induction false} Reachable(b: Binding, t0: Namespace, ls: seq<Label>)
    ensures Inv(b, Run(b, Initial(t0), ls))
  {
    RunKeeps(b, Initial(t0), ls);
  }

  /** Every quietly reachable system satisfies the target invariant too. */
  lemma {:induction false} QuietlyReachable(b: Binding, t0: Namespace, ls: seq<Label>)
    requires Quiet(ls)
    ensures Inv(b, Run(b, Initial(t0), ls)) && QuietInv(b, t0, Run(b, Initial(t0), ls))
  {
    RunKeeps(b, Initial(t0), ls);
    RunSettles(b, t0, Initial(t0), ls);
  }

  /** The systems a run passes through determine where it ends. */
  lemma {:induction false} PathIsRun(b: Binding, ls: seq<Label>, path: seq<System>)
    requires |path| == |ls| + 1
    requires forall i :: 0 <= i < |ls| ==> Apply(b, path[i], ls[i]) == path[i + 1]
    ensures Run(b, path[0], ls) == path[|ls|]
  {
    hide Apply;
    if ls != [] {
      PathIsRun(b, ls[1..], path[1..]);
    }
  }

  lemma {:induction false} RunConcat(b: Binding, s: System, ls: seq<Label>, ms: seq<Label>)
    ensures Run(b, s, ls + ms) == Run(b, Run(b, s, ls), ms)
    decreases |ls|
  {
    hide Apply;
    if ls == [] {
      assert ls + ms == ms;
    } else {
      assert (ls + ms)[1..] == ls[1..] + ms;
      RunConcat(b, Apply(b, s, ls[0]), ls[1..], ms);
    }
  }
}
