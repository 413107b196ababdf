/** Whole calls as labels: a worker that is stepped until it is done does what the uninterrupted
    call does, so every claim about such a call is a claim about runs. */
module DeployCalls {
  import opened Catalog
  import opened Lifecycle
  import opened DeployProtocol
  import opened DeployRuns

  const CALL_STEPS: nat := 20

  /** Enough steps of one worker; a worker that is done ignores the rest. */
  function Steps(id: WorkerId, n: nat): (ls: seq<Label>)
    ensures |ls| == n && forall l :: l in ls ==> l == Step(id)
  {
    if n == 0 then [] else [Step(id)] + Steps(id, n - 1)
  }

  function Deploying(id: WorkerId): seq<Label> {
    [StartDeploy(id)] + Steps(id, CALL_STEPS)
  }

  function RollingBack(id: WorkerId): seq<Label> {
    [StartRollback(id)] + Steps(id, CALL_STEPS)
  }

  lemma {:induction false} DoneSteps(b: Binding, s: System, id: WorkerId, n: nat)
    requires Idle(s, id)
    ensures Run(b, s, Steps(id, n)) == s
  {
    if n > 0 {
      DoneSteps(b, s, id, n - 1);
      assert Steps(id, n)[1..] == Steps(id, n - 1);
    }
  }

  /** Stepping a worker as often as it can step is its uninterrupted call. */
  lemma {:induction false} SoloIsRun(b: Binding, s: System, id: WorkerId, n: nat)
    requires id in s.workers && Rank(s.workers[id]) <= n
    ensures var end := Solo(b, s.shared, id, s.workers[id]);
            Run(b, s, Steps(id, n)) == System(end.sh, s.workers[id := end.w])
    decreases n
  {
    hide Exec, DeployRank, RollbackRank;
    var w := s.workers[id];
    if w.Done? {
      DoneSteps(b, s, id, n);
      assert s.workers[id := w] == s.workers;
    } else {
      var s' := Apply(b, s, Step(id));
      ExecDescends(b, s.shared, id, w);
      SoloIsRun(b, s', id, n - 1);
      assert Steps(id, n)[1..] == Steps(id, n - 1);
      var end := Solo(b, s.shared, id, w);
      assert s'.workers[id := end.w] == s.workers[id := end.w];
    }
  }

  /** A whole deployment call of an idle worker. */
  lemma {:induction false} DeployCall(b: Binding, s: System, id: WorkerId)
    requires Idle(s, id)
    ensures var end := Solo(b, s.shared, id, Deploy(DLoad));
            Run(b, s, Deploying(id)) == System(end.sh, s.workers[id := end.w])
  {
    hide Exec, Solo;
    StartedCall(b, s, id, StartDeploy(id), Deploy(DLoad));
  }

  /** A whole rollback call of an idle worker. */
  lemma {:induction false} RollbackCall(b: Binding, s: System, id: WorkerId)
    requires Idle(s, id)
    ensures var end := Solo(b, s.shared, id, Rollback(RBound));
            Run(b, s, RollingBack(id)) == System(end.sh, s.workers[id := end.w])
  {
    hide Exec, Solo;
    StartedCall(b, s, id, StartRollback(id), Rollback(RBound));
  }

  lemma {:induction false} StartedCall(b: Binding, s: System, id: WorkerId, start: Label, w: Worker)
    requires Apply(b, s, start) == s.(workers := s.workers[id := w]) && Rank(w) <= CALL_STEPS
    ensures var end := Solo(b, s.shared, id, w);
            Run(b, s, [start] + Steps(id, CALL_STEPS)) == System(end.sh, s.workers[id := end.w])
  {
    hide Apply, Solo, Rank;
    var s' := s.(workers := s.workers[id := w]);
    SoloIsRun(b, s', id, CALL_STEPS);
    var ls := [start] + Steps(id, CALL_STEPS);
    assert ls[1..] == Steps(id, CALL_STEPS);
    var end := Solo(b, s.shared, id, w);
    assert s'.workers[id := end.w] == s.workers[id := end.w];
  }

  /** Nothing in a call is an outside writer. */
  lemma CallsAreQuiet(id: WorkerId)
    ensures Quiet(Deploying(id)) && Quiet(RollingBack(id))
  {
  }

  // ------------------------------------------------------------ what a deployment leaves alone

  lemma DeployStepKeepsRecord(b: Binding, sh: Shared, id: WorkerId, pc: DeployPc)
    ensures ExecDeploy(b, sh, id, pc).sh.record == sh.record
    ensures var w := ExecDeploy(b, sh, id, pc).w; !w.Rollback?
  {
    hide View, HasExactIndex, ValidTransition;
    match pc
    case DIntent(_, _) =>
    case DBegin(_, _, _, _) =>
    case DExecStart(_) =>
    case DFinish =>
    case _ =>
  }

  /** A deployment never writes the rollback row. */
  lemma {:induction false} DeployKeepsRecord(b: Binding, sh: Shared, id: WorkerId, w: Worker)
    requires !w.Rollback?
    ensures Solo(b, sh, id, w).sh.record == sh.record
    decreases Rank(w)
  {
    hide ExecDeploy, ExecRollback, DeployRank, RollbackRank;
    if !w.Done? {
      ExecDescends(b, sh, id, w);
      if w.Deploy? {
        DeployStepKeepsRecord(b, sh, id, w.d);
      }
      var next := Exec(b, sh, id, w);
      DeployKeepsRecord(b, next.sh, id, next.w);
    }
  }
}
