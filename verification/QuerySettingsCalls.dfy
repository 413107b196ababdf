/** Whole query-hint calls as labels, as for deployments. */
module QuerySettingsCalls {
  import opened Catalog
  import opened Lifecycle
  import opened QuerySettings

  const CALL_STEPS: nat := 12

  /** Enough steps of one worker; a worker that is done ignores the rest. */
  function Steps(id: WorkerId, n: nat): (ls: seq<Label>)
    ensures |ls| == n
  {
    if n == 0 then [] else [Step(id)] + Steps(id, n - 1)
  }

  function Deploying(id: WorkerId): seq<Label> {
    [StartDeploy(id)] + Steps(id, CALL_STEPS)
  }

  function RollingBack(id: WorkerId): seq<Label> {
    [StartRollback(id)] + Steps(id, CALL_STEPS)
  }

  lemma {:induction false} DoneSteps(a: Action, s: System, id: WorkerId, n: nat)
    requires Idle(s, id)
    ensures Run(a, s, Steps(id, n)) == s
  {
    if n > 0 {
      DoneSteps(a, s, id, n - 1);
      assert Steps(id, n)[1..] == Steps(id, n - 1);
    }
  }

  /** Stepping a worker as often as it can step is its uninterrupted call. */
  lemma {:induction false} SoloIsRun(a: Action, s: System, id: WorkerId, n: nat)
    requires id in s.workers && Rank(s.workers[id]) <= n
    ensures var end := Solo(a, s.shared, id, s.workers[id]);
            Run(a, s, Steps(id, n)) == System(end.sh, s.workers[id := end.w])
    decreases n
  {
    hide Exec;
    var w := s.workers[id];
    if w.Done? {
      DoneSteps(a, s, id, n);
      assert s.workers[id := w] == s.workers;
    } else {
      var s' := Apply(a, s, Step(id));
      ExecDescends(a, s.shared, id, w);
      SoloIsRun(a, s', id, n - 1);
      assert Steps(id, n)[1..] == Steps(id, n - 1);
      var end := Solo(a, s.shared, id, w);
      assert s'.workers[id := end.w] == s.workers[id := end.w];
    }
  }

  /** A whole call of an idle worker. */
  lemma {:induction false} CallIsSolo(a: Action, s: System, id: WorkerId, start: Label, w: Worker)
    requires Apply(a, s, start) == s.(workers := s.workers[id := w]) && Rank(w) <= CALL_STEPS
    ensures var end := Solo(a, s.shared, id, w);
            Run(a, s, [start] + Steps(id, CALL_STEPS)) == System(end.sh, s.workers[id := end.w])
  {
    hide Apply, Solo, Rank;
    var s' := s.(workers := s.workers[id := w]);
    SoloIsRun(a, s', id, CALL_STEPS);
    var ls := [start] + Steps(id, CALL_STEPS);
    assert ls[1..] == Steps(id, CALL_STEPS);
    var end := Solo(a, s.shared, id, w);
    assert s'.workers[id := end.w] == s.workers[id := end.w];
  }

  lemma {:induction false} RunConcat(a: Action, s: System, ls: seq<Label>, ms: seq<Label>)
    ensures Run(a, s, ls + ms) == Run(a, Run(a, s, ls), ms)
    decreases |ls|
  {
    hide Apply;
    if ls == [] {
      assert ls + ms == ms;
    } else {
      assert (ls + ms)[1..] == ls[1..] + ms;
      RunConcat(a, Apply(a, s, ls[0]), ls[1..], ms);
    }
  }

  /** The systems a run passes through determine where it ends. */
  lemma {:induction false} PathIsRun(a: Action, ls: seq<Label>, path: seq<System>)
    requires |path| == |ls| + 1
    requires forall i :: 0 <= i < |ls| ==> Apply(a, path[i], ls[i]) == path[i + 1]
    ensures Run(a, path[0], ls) == path[|ls|]
  {
    hide Apply;
    if ls != [] {
      PathIsRun(a, ls[1..], path[1..]);
    }
  }
}
