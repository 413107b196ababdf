/** Runs that happen: a deployment and its rollback on any collection, and a rollback that comes
    too early.  They show that the protocol's claims speak of something. */
module DeployScenarios {
  import opened Catalog
  import opened Lifecycle
  import opened DeployProtocol
  import opened DeployInvariant
  import opened SettledInvariant
  import opened DeployRuns
  import opened DeployCalls
  import opened DeployTheorems
  import opened DeployRefinement

  lemma QuietConcat(ls: seq<Label>, ms: seq<Label>)
    requires Quiet(ls) && Quiet(ms)
    ensures Quiet(ls + ms)
  {
  }

  // ------------------------------------------------------------ deploy, then roll back

  function RoundTrip(id: WorkerId): seq<Label> {
    Deploying(id) + RollingBack(id)
  }

  lemma {:induction false} DeployCallEnds(b: Binding, t0: Namespace, id: WorkerId)
    ensures Quiet(Deploying(id))
    ensures var s := Run(b, Initial(t0), Deploying(id));
            Deployed(b, t0, s.shared) && s.shared.record.None? && Idle(s, id)
  {
    hide Solo, Run, View, Full, Deployed;
    CallsAreQuiet(id);
    DeployCall(b, Initial(t0), id);
    NeverCrashed(b, t0, id);
  }

  /** One worker deploys and rolls back, alone: the rollback is recorded as ROLLED_BACK whatever the
      collection was, and restores the before state exactly if the collection existed without the name. */
  lemma RoundTripEnds(b: Binding, t0: Namespace, id: WorkerId)
    ensures Quiet(RoundTrip(id))
    ensures var sh := After(b, t0, RoundTrip(id));
            && HasRolledBackRecord(sh) && Undone(b, t0, sh)
            && sh.artifact.Some? && sh.artifact.value.before == View(t0)
            && (sh.target == t0 <==> t0.Present? && b.index.name !in t0.indexes)
  {
    hide Solo, Run, View, Rows, Full, Exact;
    var ls := Deploying(id);
    DeployCallEnds(b, t0, id);
    var s := Run(b, Initial(t0), ls);
    RollbackRefinement(b, t0, ls, id);
    assert Survivors(s.shared) == s.shared;
    RollbackCall(b, s, id);
    RunConcat(b, Initial(t0), ls, RollingBack(id));
    CallsAreQuiet(id);
    QuietConcat(ls, RollingBack(id));
    ExactInverse(b, t0, RoundTrip(id));
    ViewInjective(After(b, t0, RoundTrip(id)).target, t0);
  }

  /** Runs whose successful rollback does not restore the before state: the collection did not exist,
      or had an index of this name, with other keys or with the same. */
  lemma InverseFails(b: Binding, keys: Keys, id: WorkerId)
    ensures var sh := After(b, Absent, RoundTrip(id));
            HasRolledBackRecord(sh) && sh.artifact.Some? && sh.artifact.value.before == State(false, [])
            && sh.target == Present(map[])
    ensures var t0 := Present(map[b.index.name := keys]);
            var sh := After(b, t0, RoundTrip(id));
            HasRolledBackRecord(sh) && sh.artifact.Some? && sh.artifact.value.before == View(t0)
            && sh.target == Present(map[]) != t0
  {
    hide Run, Rows, Listing;
    RoundTripEnds(b, Absent, id);
    var t0 := Present(map[b.index.name := keys]);
    RoundTripEnds(b, t0, id);
    assert Bare(b, Absent) == Present(map[]) && Bare(b, t0) == Present(map[]) by {
      assert map[b.index.name := b.index.keys] - {b.index.name} == map[];
      assert map[b.index.name := keys][b.index.name := b.index.keys] - {b.index.name} == map[];
    }
    assert b.index.name in t0.indexes;
  }

  // ------------------------------------------------------------ a rollback that comes too early

  /** The deployment dies right after its intent. */
  function Interruption(id: WorkerId): seq<Label> {
    [StartDeploy(id), Step(id), Step(id), Step(id), Step(id), Crash(id)]
  }

  /** A run reaches an intent without an application, its lock free. */
  lemma {:induction false} InterruptionEnds(b: Binding, t0: Namespace, id: WorkerId)
    ensures Quiet(Interruption(id))
    ensures Run(b, Initial(t0), Interruption(id))
            == System(Fresh(t0).(artifact := Some(Artifact(b, IntentRecorded, View(t0), None))), map[])
  {
    var sh := Fresh(t0);
    var mine := sh.(lock := Some(id));
    var done := mine.(artifact := Some(Artifact(b, IntentRecorded, View(t0), None)));
    var w2, w3, w4 := Deploy(DAcquire(APPROVED)), Deploy(DReadBefore(APPROVED)), Deploy(DIntent(APPROVED, View(t0)));
    var w5 := Deploy(DBegin(APPROVED, View(t0), false, true));
    hide View;
    assert Exec(b, sh, id, Deploy(DLoad)) == Next(sh, w2);
    assert Exec(b, sh, id, w2) == Next(mine, w3);
    assert Exec(b, mine, id, w3) == Next(mine, w4);
    assert Exec(b, mine, id, w4) == Next(done, w5);
    hide Exec;
    var s0, s1, s2 := Initial(t0), System(sh, map[id := Deploy(DLoad)]), System(sh, map[id := w2]);
    var s3, s4, s5 := System(mine, map[id := w3]), System(mine, map[id := w4]), System(done, map[id := w5]);
    var s6 := System(done.(lock := None), map[]);
    assert Apply(b, s0, StartDeploy(id)) == s1 && Apply(b, s1, Step(id)) == s2 && Apply(b, s2, Step(id)) == s3;
    assert Apply(b, s3, Step(id)) == s4 && Apply(b, s4, Step(id)) == s5 && Apply(b, s5, Crash(id)) == s6;
    hide Apply, Run;
    PathIsRun(b, Interruption(id), [s0, s1, s2, s3, s4, s5, s6]);
  }

  ghost predicate IntentOnly(s: System, id: WorkerId) {
    s.shared.lock.None? && Idle(s, id) && s.shared.artifact.Some? && !IsApplied(s.shared) && s.shared.record.None?
  }

  /** From any such point of any run, a rollback call changes one row: it records the blocked outcome.
      No later call of any worker reports a rollback then, and the row stays, whoever else writes. */
  lemma {:induction false} EarlyRollbackIsFinal(b: Binding, t0: Namespace, ls: seq<Label>, id: WorkerId,
                                                more: seq<Label>, w: WorkerId)
    requires IntentOnly(Run(b, Initial(t0), ls), id)
    ensures var sh := After(b, t0, ls);
            var barred := After(b, t0, ls + RollingBack(id));
            var end := Run(b, Initial(t0), ls + RollingBack(id) + more);
            && barred == Barred(sh)
            && end.shared.record == barred.record == Some(RollbackBlocked(ArtifactInvalid, View(sh.target)))
            && (w in end.workers ==> end.workers[w] != Done(ReportedRolledBack))
  {
    hide Solo, Run, View, Rows;
    var s := Run(b, Initial(t0), ls);
    Reachable(b, t0, ls);
    EarlyRollback(b, s.shared, id);
    RollbackCall(b, s, id);
    RunConcat(b, Initial(t0), ls, RollingBack(id));
    TerminalOutcomesStay(b, t0, ls + RollingBack(id), more);
    var end := Run(b, Initial(t0), ls + RollingBack(id) + more);
    if w in end.workers && end.workers[w].Done? {
      ReportsAreTrue(b, t0, ls + RollingBack(id) + more, w);
    }
  }

  /** The barred run still deploys, and its index can then never be rolled back. */
  lemma {:induction false} BarredRunDeploys(b: Binding, t0: Namespace, ls: seq<Label>, id: WorkerId)
    requires Quiet(ls) && IntentOnly(Run(b, Initial(t0), ls), id) && Deployable(After(b, t0, ls).status)
    ensures var sh := After(b, t0, ls + RollingBack(id) + Deploying(id));
            && Deployed(b, t0, sh)
            && sh.record == Some(RollbackBlocked(ArtifactInvalid, View(After(b, t0, ls).target)))
  {
    hide Solo, Run, View, Rows, Full, Deployed;
    var ms := ls + RollingBack(id);
    var s := Run(b, Initial(t0), ms);
    CallsAreQuiet(id);
    QuietConcat(ls, RollingBack(id));
    QuietlyReachable(b, t0, ls);
    EarlyRollback(b, After(b, t0, ls), id);
    RollbackCall(b, Run(b, Initial(t0), ls), id);
    RunConcat(b, Initial(t0), ls, RollingBack(id));
    assert Survivors(s.shared) == s.shared && s.shared.drops == 0 by { NoDropYet(b, t0, After(b, t0, ls)); }
    CrashRefinement(b, t0, ms, id);
    DeployCall(b, s, id);
    RunConcat(b, Initial(t0), ms, Deploying(id));
  }

  lemma NoDropYet(b: Binding, t0: Namespace, sh: Shared)
    requires Durable(b, sh) && !IsApplied(sh)
    ensures sh.drops == 0
  {
    hide Rows;
  }
}
