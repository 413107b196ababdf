/** What is on record was verified, whoever else writes to the collection. */
module DeployEvidence {
  import opened Catalog
  import opened Lifecycle
  import opened DeployProtocol
  import opened DeployInvariant
  import opened DeployRuns

  /** The state lists this index, and no other of its name. */
  ghost predicate Lists(s: State, index: IndexSpec) {
    exists i :: 0 <= i < |s.indexes| && s.indexes[i] == index
                && forall j :: 0 <= j < |s.indexes| && j != i ==> s.indexes[j].name != index.name
  }

  /** The second state is what was recorded when the artifact was applied, without the index. */
  ghost predicate Inverse(b: Binding, sh: Shared, before: State, after: State) {
    && IsApplied(sh) && sh.artifact.value.after == Some(before)
    && after == WithoutOwnedIndex(before, b.index.name)
  }

  ghost predicate ArtifactEvidence(b: Binding, sh: Shared) {
    IsApplied(sh) ==> sh.artifact.value.after.Some? && Lists(sh.artifact.value.after.value, b.index)
  }

  ghost predicate RecordEvidence(b: Binding, sh: Shared) {
    match sh.record
    case Some(RollbackIntent(before, after)) => Inverse(b, sh, before, after)
    case Some(RolledBack(before, after)) => Inverse(b, sh, before, after)
    case _ => true
  }

  ghost predicate EventEvidence(b: Binding, sh: Shared, e: Event) {
    match e
    case DeploymentIntent(_) => true
    case DeploymentApplied(_, after) => IsApplied(sh) && Lists(after, b.index)
    case RollbackApplied(before, after) => Inverse(b, sh, before, after)
  }

  ghost predicate Evidence(b: Binding, sh: Shared) {
    && ArtifactEvidence(b, sh) && RecordEvidence(b, sh)
    && forall e :: e in sh.ledger ==> EventEvidence(b, sh, e)
  }

  ghost predicate LocalEvidence(b: Binding, sh: Shared, w: Worker) {
    match w
    case Deploy(DMark(_, after)) => Lists(after, b.index)
    case Deploy(DLedgerApplied(_, after)) => Lists(after, b.index)
    case Rollback(RIntent(s)) => IsApplied(sh) && sh.artifact.value.after == Some(s)
    case Rollback(RDrop(before, after)) => Inverse(b, sh, before, after)
    case Rollback(RVerify(before, after)) => Inverse(b, sh, before, after)
    case Rollback(RCheckLedger(before, after)) => Inverse(b, sh, before, after)
    case Rollback(RLedger(before, after)) => Inverse(b, sh, before, after)
    case Rollback(RFinal(before, after)) => Inverse(b, sh, before, after)
    case _ => true
  }

  /** The listed-index test of the verification points, on what can be observed. */
  lemma ExactIsListed(t: Namespace, index: IndexSpec)
    requires HasExactIndex(View(t), index)
    ensures Lists(View(t), index)
  {
    HasExactView(t, index);
    ListingOrdered(t.indexes);
    var xs := Listing(t.indexes);
    assert index in xs;
    var i :| 0 <= i < |xs| && xs[i] == index;
  }

  lemma DeployEvidenceStep(b: Binding, sh: Shared, id: WorkerId, pc: DeployPc)
    requires Durable(b, sh) && DeployLocal(b, sh, pc) && Evidence(b, sh) && LocalEvidence(b, sh, Deploy(pc))
    ensures var next := ExecDeploy(b, sh, id, pc); Evidence(b, next.sh) && LocalEvidence(b, next.sh, next.w)
  {
    hide View, HasExactIndex, Rows, Lists, WithoutOwnedIndex, ValidTransition;
    match pc
    case DReadAfter(_) =>
      if HasExactIndex(View(sh.target), b.index) {
        ExactIsListed(sh.target, b.index);
      }
    case _ =>
  }

  lemma RollbackEvidenceStep(b: Binding, sh: Shared, id: WorkerId, pc: RollbackPc)
    requires Durable(b, sh) && RollbackLocal(b, sh, pc) && Evidence(b, sh) && LocalEvidence(b, sh, Rollback(pc))
    ensures var next := ExecRollback(b, sh, id, pc); Evidence(b, next.sh) && LocalEvidence(b, next.sh, next.w)
  {
    hide View, HasExactIndex, Rows, Lists, WithoutOwnedIndex, Named;
    match pc
    case RReadRecord(_, _) =>
    case RIntent(_) =>
    case _ =>
  }

  // ------------------------------------------------------------ whole runs

  ghost predicate Evident(b: Binding, s: System) {
    Evidence(b, s.shared) && forall w :: w in s.workers ==> LocalEvidence(b, s.shared, s.workers[w])
  }

  /** Evidence is about rows alone, and outside the lock a worker carries none. */
  lemma EvidenceFrame(b: Binding, sh: Shared, sh': Shared, w: Worker)
    requires sh' == sh.(target := sh'.target, status := sh'.status, lock := sh'.lock)
    ensures Evidence(b, sh) ==> Evidence(b, sh')
    ensures LocalEvidence(b, sh, w) ==> LocalEvidence(b, sh', w)
  {
    hide Lists, WithoutOwnedIndex;
  }

  lemma UnlockedEvident(b: Binding, sh: Shared, w: Worker)
    requires !Locked(w)
    ensures LocalEvidence(b, sh, w)
  {
  }

  lemma InterruptedEvident(b: Binding, sh: Shared, w: Worker)
    ensures LocalEvidence(b, sh, Interrupted(w))
  {
  }

  lemma ExecEvident(b: Binding, sh: Shared, id: WorkerId, w: Worker)
    requires Durable(b, sh) && Local(b, sh, w) && Evidence(b, sh) && LocalEvidence(b, sh, w) && !w.Done?
    ensures var next := Exec(b, sh, id, w); Evidence(b, next.sh) && LocalEvidence(b, next.sh, next.w)
  {
    hide Durable, DeployLocal, RollbackLocal, ExecDeploy, ExecRollback, Evidence;
    match w
    case Deploy(pc) => DeployEvidenceStep(b, sh, id, pc);
    case Rollback(pc) => RollbackEvidenceStep(b, sh, id, pc);
    case Releasing(_) => EvidenceFrame(b, sh, sh.(lock := None), w);
  }

  lemma StepEvident(b: Binding, s: System, w: WorkerId)
    requires Inv(b, s) && Evident(b, s) && !Idle(s, w)
    ensures Evident(b, Apply(b, s, Step(w)))
  {
    hide Durable, Local, Exec, Evidence, LocalEvidence;
    ExecEvident(b, s.shared, w, s.workers[w]);
    var s' := Apply(b, s, Step(w));
    forall v | v in s.workers && v != w
      ensures LocalEvidence(b, s'.shared, s.workers[v])
    {
      OthersKeep(b, s, w, v);
      if !Locked(s.workers[v]) {
        UnlockedEvident(b, s'.shared, s.workers[v]);
      }
    }
  }

  lemma ApplyEvident(b: Binding, s: System, l: Label)
    requires Inv(b, s) && Evident(b, s)
    ensures Evident(b, Apply(b, s, l))
  {
    hide Inv, Exec, Evidence, LocalEvidence;
    if l.Step? {
      if !Idle(s, l.w) {
        StepEvident(b, s, l.w);
      }
    } else {
      var s' := Apply(b, s, l);
      EvidenceFrame(b, s.shared, s'.shared, Done(Failed));
      forall w | w in s'.workers
        ensures LocalEvidence(b, s'.shared, s'.workers[w])
      {
        if w in s.workers && s'.workers[w] == s.workers[w] {
          EvidenceFrame(b, s.shared, s'.shared, s.workers[w]);
        } else if l.Abort? {
          InterruptedEvident(b, s'.shared, s.workers[w]);
        } else {
          UnlockedEvident(b, s'.shared, s'.workers[w]);
        }
      }
    }
  }

  lemma {:induction false} RunEvident(b: Binding, s: System, ls: seq<Label>)
    requires Inv(b, s) && Evident(b, s)
    ensures Evident(b, Run(b, s, ls))
    decreases |ls|
  {
    hide Inv, Evident, Apply;
    if ls != [] {
      ApplyKeeps(b, s, ls[0]);
      ApplyEvident(b, s, ls[0]);
      RunEvident(b, Apply(b, s, ls[0]), ls[1..]);
    }
  }

  /** Along every run, with any outside writers: an APPLIED artifact and every DEPLOYMENT_APPLIED row
      state a collection that lists the action's index once; every rollback intent, ROLLED_BACK outcome
      and ROLLBACK_APPLIED row goes from the state the artifact recorded to that state without it. */
  lemma {:induction false} RecordsAreVerified(b: Binding, t0: Namespace, ls: seq<Label>)
    ensures var sh := Run(b, Initial(t0), ls).shared;
            && (IsApplied(sh) ==> sh.artifact.value.after.Some? && Lists(sh.artifact.value.after.value, b.index))
            && (forall e :: e in sh.ledger && e.DeploymentApplied? ==> IsApplied(sh) && Lists(e.after, b.index))
            && (sh.record.Some? && sh.record.value.RollbackIntent? ==>
                  Inverse(b, sh, sh.record.value.before, sh.record.value.expectedAfter))
            && (sh.record.Some? && sh.record.value.RolledBack? ==>
                  Inverse(b, sh, sh.record.value.before, sh.record.value.after))
            && (forall e :: e in sh.ledger && e.RollbackApplied? ==> Inverse(b, sh, e.before, e.after))
  {
    hide Run, Inverse, Lists;
    RunEvident(b, Initial(t0), ls);
    var sh := Run(b, Initial(t0), ls).shared;
    forall e | e in sh.ledger
      ensures EventEvidence(b, sh, e)
    {
    }
  }
}
