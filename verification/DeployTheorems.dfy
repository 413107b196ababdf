/** The promises of the deployment and rollback protocol, over all runs. */
module DeployTheorems {
  import opened Catalog
  import opened Lifecycle
  import opened DeployProtocol
  import opened DeployInvariant
  import opened SettledInvariant
  import opened DeployRuns
  import opened DeployEvidence

  function After(b: Binding, t0: Namespace, ls: seq<Label>): Shared {
    Run(b, Initial(t0), ls).shared
  }

  // ------------------------------------------------------------ safety over all interleavings

  /** Without outside writers the index is created at most once and dropped at most once, and
      only an APPLIED artifact's index is dropped; the ledger claims each at most once. */
  lemma AtMostOnce(b: Binding, t0: Namespace, ls: seq<Label>)
    requires Quiet(ls)
    ensures var sh := After(b, t0, ls);
            && sh.creates <= 1
            && sh.drops <= 1
            && (sh.drops == 1 ==> IsApplied(sh))
            && Rows(sh.ledger, false) <= 1 && Rows(sh.ledger, true) <= 1
            && (sh.target == t0 || sh.target == Full(b, t0) || sh.target == Bare(b, t0))
  {
    hide View, Rows, Run;
    QuietlyReachable(b, t0, ls);
  }

  /** Whoever else writes to the target: each mutation is issued under the lock, after the rows that make it
      recoverable: a creation with its intent recorded and its execution started, a drop with the artifact
      APPLIED and the rollback intended. */
  lemma MutationsAreGuarded(b: Binding, t0: Namespace, ls: seq<Label>, l: Label)
    ensures var sh, sh' := After(b, t0, ls), After(b, t0, ls + [l]);
            && (sh'.creates != sh.creates ==>
                  && l.Step? && sh.lock == Some(l.w) && sh'.creates == sh.creates + 1 && sh'.drops == sh.drops
                  && sh.artifact.Some? && sh.artifact.value.status.IntentRecorded? && sh.status != APPROVED
                  && sh.recovery == Some(Recovery(b.index, ExecutionStarted)))
            && (sh'.drops != sh.drops ==>
                  && l.Step? && sh.lock == Some(l.w) && sh'.drops == sh.drops + 1 && sh'.creates == sh.creates
                  && IsApplied(sh) && HasIntentRecord(sh))
  {
    hide View, Rows;
    var s := Run(b, Initial(t0), ls);
    Reachable(b, t0, ls);
    RunConcat(b, Initial(t0), ls, [l]);
    assert Run(b, s, [l]) == Apply(b, s, l) by {
      hide Apply;
      assert Run(b, Apply(b, s, l), []) == Apply(b, s, l);
    }
    if l.Step? && !Idle(s, l.w) {
      MutatingStep(b, s.shared, l.w, s.workers[l.w]);
    }
  }

  lemma MutatingStep(b: Binding, sh: Shared, id: WorkerId, w: Worker)
    ensures var sh' := Exec(b, sh, id, w).sh;
            && (sh'.creates != sh.creates ==>
                  w.Deploy? && w.d.DCreate? && sh'.creates == sh.creates + 1 && sh'.drops == sh.drops)
            && (sh'.drops != sh.drops ==>
                  w.Rollback? && w.r.RDrop? && sh'.drops == sh.drops + 1 && sh'.creates == sh.creates)
  {
    hide View, Rows, HasExactIndex, SafeReason, WithoutOwnedIndex, RecordedOutcome;
    match w
    case Deploy(pc) =>
      match pc {
        case DBegin(_, _, _, _) =>
        case DExecStart(_) =>
        case DRecordIntent(_, _) =>
        case DFinish =>
        case _ =>
      }
    case Rollback(pc) =>
    case Releasing(_) =>
    case Done(_) =>
  }

  /** A rolled-back index stays away: nothing that happens later creates or drops again. */
  lemma NoRecreation(b: Binding, t0: Namespace, ls: seq<Label>, ms: seq<Label>)
    requires Quiet(ls) && Quiet(ms)
    requires After(b, t0, ls).drops > 0
    ensures var sh, sh' := After(b, t0, ls), After(b, t0, ls + ms);
            sh'.target == sh.target == Bare(b, t0) && sh'.creates == sh.creates && sh'.drops == sh.drops
  {
    hide View, Rows, Run;
    QuietlyReachable(b, t0, ls);
    QuietlyReachable(b, t0, ls + ms);
    RunConcat(b, Initial(t0), ls, ms);
    RunKeeps(b, Run(b, Initial(t0), ls), ms);
  }

  /** A recorded ROLLED_BACK means one drop and one ledger row, and the artifact's before state
      is the state before the first mutation.  The target is back in that state exactly when the
      collection existed and did not have an index of this name. */
  lemma ExactInverse(b: Binding, t0: Namespace, ls: seq<Label>)
    requires Quiet(ls) && HasRolledBackRecord(After(b, t0, ls))
    ensures var sh := After(b, t0, ls);
            && IsApplied(sh) && sh.artifact.value.before == View(t0)
            && sh.drops == 1 && Rows(sh.ledger, true) == 1
            && sh.record.value == RolledBack(View(Full(b, t0)), View(sh.target))
            && (View(sh.target) == sh.artifact.value.before
                <==> t0.Present? && b.index.name !in t0.indexes)
  {
    hide View, Rows, Run;
    QuietlyReachable(b, t0, ls);
    ViewInjective(After(b, t0, ls).target, t0);
    DropUndoesCreate(t0, b.index);
  }

  /** A terminal rollback outcome, an artifact's before state and an APPLIED artifact are never
      rewritten, even by calls that loaded their rows before the lock and whoever writes outside. */
  lemma TerminalOutcomesStay(b: Binding, t0: Namespace, ls: seq<Label>, ms: seq<Label>)
    ensures var sh, sh' := After(b, t0, ls), After(b, t0, ls + ms);
            && (sh.record.Some? && !sh.record.value.RollbackIntent? ==> sh'.record == sh.record)
            && (sh.artifact.Some? ==> sh'.artifact.Some? && sh'.artifact.value.before == sh.artifact.value.before)
            && (IsApplied(sh) ==> sh'.artifact == sh.artifact)
            && sh.ledger <= sh'.ledger
  {
    hide View, Rows, Run;
    Reachable(b, t0, ls);
    RunConcat(b, Initial(t0), ls, ms);
    RunKeeps(b, Run(b, Initial(t0), ls), ms);
  }

  /** What a caller is told is on record, whoever else writes: success means an APPLIED artifact whose
      recorded collection lists the index once, a reported rollback is recorded with one ledger row, from
      that collection to it without the index. */
  lemma {:induction false} ReportsAreTrue(b: Binding, t0: Namespace, ls: seq<Label>, w: WorkerId)
    requires var s := Run(b, Initial(t0), ls); w in s.workers && s.workers[w].Done?
    ensures var s := Run(b, Initial(t0), ls);
            && (s.workers[w].result == Succeeded ==>
                  && IsApplied(s.shared) && s.shared.artifact.value.after.Some?
                  && Lists(s.shared.artifact.value.after.value, b.index))
            && (s.workers[w].result == ReportedRolledBack ==>
                  && HasRolledBackRecord(s.shared) && Rows(s.shared.ledger, true) == 1
                  && Inverse(b, s.shared, s.shared.record.value.before, s.shared.record.value.after))
  {
    hide View, Rows, Run, Lists, Inverse;
    Reachable(b, t0, ls);
    RecordsAreVerified(b, t0, ls);
  }

  ghost predicate AllDone(s: System) {
    forall w :: w in s.workers ==> s.workers[w].Done?
  }

  /** No call leaks the lock: with every call finished or dead it is free. */
  lemma {:induction false} LockIsReleased(b: Binding, t0: Namespace, ls: seq<Label>)
    requires AllDone(Run(b, Initial(t0), ls))
    ensures After(b, t0, ls).lock == None
  {
    hide View, Rows, Run, Durable, Local;
    Reachable(b, t0, ls);
  }
}
