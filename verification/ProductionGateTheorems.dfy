/** What every run through the gate keeps. */
module ProductionGateTheorems {
  import opened Catalog
  import opened Lifecycle
  import opened ProductionGate

  /** Statuses a run has only after the gate let it pass. */
  predicate Released(s: RunStatus) {
    s == APPROVED || s == DEPLOYING || s == DEPLOYED || s == MONITORING || s == ROLLED_BACK || s == ROLLBACK_BLOCKED
  }

  predicate IsAutonomous(g: Gate) {
    g.decision.Some? && g.decision.value.authority.AUTONOMOUS?
  }

  predicate IsHuman(g: Gate) {
    g.decision.Some? && g.decision.value.authority.HUMAN_REQUIRED?
  }

  /** Approved through the path that is bound to the run. */
  predicate Continued(g: Gate) {
    g.jobs == 1
  }

  // ------------------------------------------------------------ the invariant

  ghost predicate DecisionSound(g: Gate) {
    && (g.decision.Some? <==> g.evidence.Some?)
    && (g.decision.Some? ==> Decidable(g.evidence.value) && g.decision.value == Decided(g.evidence.value))
  }

  ghost predicate StatusSound(g: Gate) {
    && (g.status == APPROVAL_PENDING ==> IsHuman(g))
    && (Released(g.status) ==> IsAutonomous(g) || (IsHuman(g) && Continued(g)))
    && g.jobs <= 1 && (g.jobs == 1 ==> IsHuman(g))
  }

  ghost predicate VerdictSound(g: Gate) {
    match g.request
    case None => g.verdicts == [] && g.jobs == 0
    case Some(r) =>
      match r.status
      case PENDING => g.verdicts == [] && g.jobs == 0
      case APPROVAL_GRANTED => |g.verdicts| == 1 && g.verdicts[0].granted && g.verdicts[0].user != r.requester
      case APPROVAL_REFUSED =>
        |g.verdicts| == 1 && !g.verdicts[0].granted && g.verdicts[0].user != r.requester
        && g.jobs == 0 && g.status == COMPLETED && IsHuman(g)
  }

  /** A load was admitted on the decision that stands, and on the approval that stands if it needed one. */
  ghost predicate LoadSound(g: Gate, l: Load) {
    && g.decision == Some(l.decision) && Admits(l)
    && (l.decision.authority.HUMAN_REQUIRED? ==> g.request == l.approval)
    && (Released(l.runStatus) ==> IsAutonomous(g) || Continued(g))
  }

  ghost predicate HistorySound(g: Gate) {
    && (forall w :: w in g.loads ==> LoadSound(g, g.loads[w]))
    && (forall l :: l in g.creations ==> LoadSound(g, l) && Released(l.runStatus))
  }

  ghost predicate Inv(g: Gate) {
    DecisionSound(g) && StatusSound(g) && VerdictSound(g) && HistorySound(g)
  }

  /** The step leaves alone what the history relies on. */
  ghost predicate Extends(g: Gate, g': Gate) {
    && (g.decision.Some? ==> g'.decision == g.decision)
    && (g.request.Some? && g.request.value.status.APPROVAL_GRANTED? ==> g'.request == g.request)
    && g.jobs <= g'.jobs <= 1
  }

  lemma LoadKept(g: Gate, g': Gate, l: Load)
    requires LoadSound(g, l) && Extends(g, g')
    ensures LoadSound(g', l)
  {
    hide Bound;
  }

  lemma HistoryKept(g: Gate, g': Gate)
    requires HistorySound(g) && Extends(g, g')
    requires g'.loads == g.loads && g'.creations == g.creations
    ensures HistorySound(g')
  {
    hide LoadSound, Extends;
    forall w | w in g.loads
      ensures LoadSound(g', g.loads[w])
    {
      LoadKept(g, g', g.loads[w]);
    }
    forall l | l in g.creations
      ensures LoadSound(g', l)
    {
      LoadKept(g, g', l);
    }
  }

  lemma ApprovalStep(g: Gate, l: Label)
    requires Inv(g) && (l.Decide? || l.Request? || l.Promote? || l.Approve? || l.ApproveAndEnqueue? || l.Reject?)
    ensures Inv(Apply(g, l))
  {
    hide HistorySound, Decided, Decidable, ValidTransition;
    HistoryKept(g, Apply(g, l));
  }

  lemma AdvanceStep(g: Gate, l: Label)
    requires Inv(g) && l.Advance?
    ensures Inv(Apply(g, l))
  {
    hide HistorySound, Decided, Decidable;
    HistoryKept(g, Apply(g, l));
  }

  lemma DriftStep(g: Gate, l: Label)
    requires Inv(g) && l.Drift?
    ensures Inv(Apply(g, l))
  {
    hide HistorySound, Decided, Decidable;
    HistoryKept(g, Apply(g, l));
  }

  lemma LoadStep(g: Gate, l: Label)
    requires Inv(g) && l.LoadBound?
    ensures Inv(Apply(g, l))
  {
    hide Decided, Decidable, Bound, VerdictSound, LoadSound;
    var g' := Apply(g, l);
    VerdictKept(g, l);
    if g' != g {
      NewLoad(g, l.w, l.at);
      LoadsKept(g, g');
    }
  }

  lemma CreateStep(g: Gate, l: Label)
    requires Inv(g) && l.Create?
    ensures Inv(Apply(g, l))
  {
    hide Decided, Decidable, Bound, VerdictSound;
    VerdictKept(g, l);
    LoadsKept(g, Apply(g, l));
  }

  lemma CrashStep(g: Gate, l: Label)
    requires Inv(g) && l.Crash?
    ensures Inv(Apply(g, l))
  {
    hide Decided, Decidable, Bound, VerdictSound, LoadSound;
    VerdictKept(g, l);
    LoadsKept(g, Apply(g, l));
  }

  lemma LoadsKept(g: Gate, g': Gate)
    requires Extends(g, g')
    ensures forall k: Load :: LoadSound(g, k) ==> LoadSound(g', k)
  {
    hide LoadSound, Extends;
    forall k: Load | LoadSound(g, k)
      ensures LoadSound(g', k)
    {
      LoadKept(g, g', k);
    }
  }

  lemma VerdictKept(g: Gate, l: Label)
    requires VerdictSound(g) && (l.LoadBound? || l.Create? || l.Crash?)
    ensures VerdictSound(Apply(g, l))
  {
    hide Bound, Admits;
  }

  lemma NewLoad(g: Gate, w: WorkerId, at: int)
    requires Inv(g) && LoadTx(g, w, at).ok
    ensures var l := LoadTx(g, w, at).g.loads[w]; LoadSound(LoadTx(g, w, at).g, l)
  {
    hide Bound, HistorySound, Decided, Decidable;
  }

  lemma {:induction false} RunInv(g: Gate, ls: seq<Label>)
    requires Inv(g)
    ensures Inv(Run(g, ls))
    decreases |ls|
  {
    hide Inv, Apply;
    if ls != [] {
      var l := ls[0];
      match l {
        case LoadBound(_, _) => LoadStep(g, l);
        case Create(_) => CreateStep(g, l);
        case Crash(_) => CrashStep(g, l);
        case Advance(_) => AdvanceStep(g, l);
        case Drift(_) => DriftStep(g, l);
        case _ => ApprovalStep(g, l);
      }
      RunInv(Apply(g, l), ls[1..]);
    }
  }

  function After(f: Facts, ls: seq<Label>): Gate {
    Run(Initial(f), ls)
  }

  lemma Reachable(f: Facts, ls: seq<Label>)
    ensures Inv(After(f, ls))
  {
    hide Run;
    RunInv(Initial(f), ls);
  }

  lemma {:induction false} RunConcat(g: Gate, ls: seq<Label>, ms: seq<Label>)
    ensures Run(g, ls + ms) == Run(Run(g, ls), ms)
    decreases |ls|
  {
    hide Apply;
    if ls == [] {
      assert ls + ms == ms;
    } else {
      assert (ls + ms)[1..] == ls[1..] + ms;
      RunConcat(Apply(g, ls[0]), ls[1..], ms);
    }
  }

  lemma {:induction false} OneLabel(g: Gate, l: Label)
    ensures Run(g, [l]) == Apply(g, l)
  {
    hide Apply;
    assert Run(Apply(g, l), []) == Apply(g, l);
  }

  // ------------------------------------------------------------ authority

  /** The run may be deployed without anybody asked, or its approval was continued. */
  ghost predicate HasAuthority(g: Gate) {
    IsAutonomous(g) || Continued(g)
  }

  lemma ApprovedHasAuthority(g: Gate)
    requires Inv(g) && g.status == APPROVED
    ensures HasAuthority(g)
  {
    hide HistorySound, DecisionSound, VerdictSound;
  }

  lemma SameAuthority(g: Gate, g': Gate)
    requires HasAuthority(g) && g'.decision == g.decision && g'.jobs == g.jobs
    ensures HasAuthority(g')
  {
  }

  /** Labels other than those of the deployment calls leave loads and creations alone, never take
      authority back, and move a released run along the lifecycle graph only. */
  lemma OtherLabels(g: Gate, l: Label)
    requires Inv(g) && !l.LoadBound? && !l.Create? && !l.Crash?
    ensures var g' := Apply(g, l);
            && g'.loads == g.loads && g'.creations == g.creations
            && (HasAuthority(g) ==> HasAuthority(g'))
            && (ApprovedOrLater(g.status) ==>
                  g'.status == if l.Advance? && ValidTransition(g.status, l.next) then l.next else g.status)
  {
    hide HistorySound, Decided, Decidable, ValidTransition;
  }

  // ------------------------------------------------------------ what a creation implies

  /** The facts a load saw are those the decision was taken on. */
  ghost predicate SameEnvironment(now: Facts, before: Facts) {
    && now.mode == before.mode && now.productionEligible == before.productionEligible
    && now.target.Some? && before.target.Some?
    && EnvironmentBinding(now.target.value, now.capability, now.credential)
       == EnvironmentBinding(before.target.value, before.capability, before.credential)
  }

  /** An admitted candidate with the decided fingerprint, an unchanged environment, and either the
      five autonomy conditions or a live approval by somebody other than the requester. */
  ghost predicate Authorized(g: Gate, l: Load) {
    && g.decision.Some? && g.evidence.Some? && Decidable(g.evidence.value)
    && l.facts.selected.Some? && l.facts.selected.value.status.CANDIDATE_ADMITTED?
    && l.facts.action == Some(CREATE_INDEX)
    && l.facts.selected.value.id == g.evidence.value.selected.value.id
    && l.facts.selected.value.fingerprint == g.evidence.value.selected.value.fingerprint
    && SameEnvironment(l.facts, g.evidence.value)
    && (Automatic(g.evidence.value) || ApprovedByAnother(g, l))
  }

  /** An approval of that fingerprint, granted through the path that queues the run's one
      continuation job. */
  ghost predicate ApprovedByAnother(g: Gate, l: Load) {
    && g.request.Some? && g.request == l.approval
    && l.facts.selected.Some?
    && g.request.value.candidate == l.facts.selected.value.id
    && Some(g.request.value.fingerprint) == l.facts.selected.value.fingerprint
    && g.request.value.status.APPROVAL_GRANTED? && g.request.value.expires > l.at
    && |g.verdicts| == 1 && g.verdicts[0].granted && g.verdicts[0].user != g.request.value.requester
    && g.jobs == 1
  }

  /** Every index creation of every run is authorized. */
  lemma CreationIsAuthorized(f: Facts, ls: seq<Label>, l: Load)
    requires l in After(f, ls).creations
    ensures Authorized(After(f, ls), l)
  {
    hide Run, StatusSound;
    Reachable(f, ls);
    var g := After(f, ls);
    assert LoadSound(g, l);
  }

  /** An equal binding means the same target row, credential and capability snapshot, except that
      "no snapshot" reads like a snapshot whose fingerprint is that very text. */
  lemma BindingIff(t: Target, c: Option<string>, k: Option<Credential>, t': Target, c': Option<string>,
                   k': Option<Credential>)
    ensures EnvironmentBinding(t, c, k) == EnvironmentBinding(t', c', k')
            <==> t == t' && k == k'
                 && (c == c' || (c.None? && c' == Some(NO_CAPABILITY)) || (c'.None? && c == Some(NO_CAPABILITY)))
  {
  }

  // ------------------------------------------------------------ approve and reject

  /** At most one verdict; the one continuation job exists exactly when the approval went through
      the run-bound path, and a rejected run never touches the target. */
  lemma VerdictsExclude(f: Facts, ls: seq<Label>)
    ensures var g := After(f, ls);
            && |g.verdicts| <= 1 && g.jobs <= 1
            && (g.jobs == 1 ==> |g.verdicts| == 1 && g.verdicts[0].granted && IsHuman(g))
            && (|g.verdicts| == 1 ==>
                  && g.request.Some? && g.verdicts[0].user != g.request.value.requester
                  && (g.verdicts[0].granted <==> g.request.value.status.APPROVAL_GRANTED?))
            && (|g.verdicts| == 1 && !g.verdicts[0].granted
                ==> g.status == COMPLETED && g.jobs == 0 && g.creations == [])
  {
    hide Run, Bound;
    Reachable(f, ls);
    var g := After(f, ls);
    if g.creations != [] {
      assert LoadSound(g, g.creations[0]);
    }
  }

  ghost predicate Grants(g: Gate, ls: seq<Label>, i: nat)
    requires i < |ls|
  {
    ls[i].ApproveAndEnqueue? && ApproveAndEnqueueTx(Run(g, ls[..i]), ls[i].user, ls[i].at).ok
  }

  lemma JobStep(g: Gate, l: Label)
    requires Inv(g)
    ensures Apply(g, l).jobs == 1 <==> g.jobs == 1 || (l.ApproveAndEnqueue? && ApproveAndEnqueueTx(g, l.user, l.at).ok)
  {
    hide Decided, Decidable, Bound, HistorySound, Admits, ValidTransition;
  }

  lemma StepInv(g: Gate, l: Label)
    requires Inv(g)
    ensures Inv(Apply(g, l))
  {
    hide Inv, Apply;
    RunInv(g, [l]);
    assert Run(g, [l]) == Run(Apply(g, l), []);
  }

  lemma GrantsShift(g: Gate, ls: seq<Label>, i: nat)
    requires i + 1 < |ls|
    ensures Grants(Apply(g, ls[0]), ls[1..], i) <==> Grants(g, ls, i + 1)
  {
    hide Apply;
    assert ls[..i + 1][0] == ls[0] && ls[..i + 1][1..] == ls[1..][..i];
  }

  /** The continuation job exists exactly when some run-bound approval was accepted. */
  lemma {:induction false} JobIffContinued(g: Gate, ls: seq<Label>)
    requires Inv(g)
    ensures Run(g, ls).jobs == 1 <==> g.jobs == 1 || exists i :: 0 <= i < |ls| && Grants(g, ls, i)
    decreases |ls|
  {
    hide Inv, Apply, Grants;
    if ls != [] {
      StepInv(g, ls[0]);
      JobStep(g, ls[0]);
      JobIffContinued(Apply(g, ls[0]), ls[1..]);
      assert Grants(g, ls, 0) <==> ls[0].ApproveAndEnqueue? && ApproveAndEnqueueTx(g, ls[0].user, ls[0].at).ok by {
        FirstGrant(g, ls);
      }
      if i :| 0 <= i < |ls| - 1 && Grants(Apply(g, ls[0]), ls[1..], i) {
        GrantsShift(g, ls, i);
        assert Grants(g, ls, i + 1);
      }
      if i :| 0 < i < |ls| && Grants(g, ls, i) {
        GrantsShift(g, ls, i - 1);
        assert Grants(Apply(g, ls[0]), ls[1..], i - 1);
      }
    }
  }

  lemma FirstGrant(g: Gate, ls: seq<Label>)
    requires ls != []
    ensures Grants(g, ls, 0) <==> ls[0].ApproveAndEnqueue? && ApproveAndEnqueueTx(g, ls[0].user, ls[0].at).ok
  {
    hide ApproveAndEnqueueTx, Apply;
    assert Run(g, ls[..0]) == g;
  }

  // ------------------------------------------------------------ the bare approve

  /** Granted without the run: the run can only wait or fail. */
  ghost predicate Stranded(g: Gate) {
    && g.request.Some? && g.request.value.status.APPROVAL_GRANTED? && g.jobs == 0 && IsHuman(g) && g.creations == []
    && (g.status == ADMITTED || g.status == APPROVAL_PENDING || g.status == FAILED)
  }

  lemma StrandedStep(g: Gate, l: Label)
    requires Inv(g) && Stranded(g)
    ensures Stranded(Apply(g, l))
  {
    hide Decided, Decidable, Bound, Admits, VerdictSound;
    if l.Create? && l.w in g.loads {
      assert LoadSound(g, g.loads[l.w]);
      assert !Released(g.loads[l.w].runStatus);
    }
  }

  lemma {:induction false} BareApprovalStrands(g: Gate, ls: seq<Label>)
    requires Inv(g) && Stranded(g)
    ensures Stranded(Run(g, ls))
    decreases |ls|
  {
    hide Inv, Stranded, Apply;
    if ls != [] {
      StepInv(g, ls[0]);
      StrandedStep(g, ls[0]);
      BareApprovalStrands(Apply(g, ls[0]), ls[1..]);
    }
  }

  lemma NoCreationYet(g: Gate)
    requires Inv(g) && !IsAutonomous(g) && g.jobs == 0
    ensures g.creations == []
  {
    hide Inv;
    if g.creations != [] {
      CreationWasReleased(g, g.creations[0]);
    }
  }

  lemma CreationWasReleased(g: Gate, l: Load)
    requires Inv(g) && l in g.creations
    ensures IsAutonomous(g) || Continued(g)
  {
    hide Bound, DecisionSound, StatusSound, VerdictSound;
    assert LoadSound(g, l);
  }

  /** Granted without a continuation: no approval call is accepted any more. */
  ghost predicate Spent(g: Gate) {
    g.request.Some? && g.request.value.status.APPROVAL_GRANTED? && g.jobs == 0
  }

  lemma {:induction false} SpentRun(g: Gate, ls: seq<Label>)
    requires Inv(g) && Spent(g)
    ensures Spent(Run(g, ls))
    decreases |ls|
  {
    hide Inv, Apply;
    if ls != [] {
      StepInv(g, ls[0]);
      SpentStep(g, ls[0]);
      SpentRun(Apply(g, ls[0]), ls[1..]);
    }
  }

  lemma SpentStep(g: Gate, l: Label)
    requires Spent(g)
    ensures Spent(Apply(g, l))
  {
    hide Decided, Decidable, Bound, Admits, ValidTransition;
  }

  /** A bare `approve`, whenever it comes, spends the request: the run never gets its continuation
      job, and it creates no index and is never released unless the decision is autonomous.  A run
      that already waits for the approval, or is decided as human, only waits or fails. */
  lemma {:induction false} BareApproval(f: Facts, ls: seq<Label>, user: UserId, at: int, more: seq<Label>)
    requires ApproveTx(After(f, ls), user, at).ok
    ensures var g, end := After(f, ls), Run(ApproveTx(After(f, ls), user, at).g, more);
            && end.jobs == 0
            && (!IsAutonomous(end) ==> end.creations == [] && !Released(end.status))
            && (g.status == APPROVAL_PENDING || (g.status == ADMITTED && IsHuman(g)) ==>
                  && end.creations == []
                  && (end.status == ADMITTED || end.status == APPROVAL_PENDING || end.status == FAILED))
  {
    hide Run, Inv, Released, Spent, Stranded;
    Reachable(f, ls);
    var g := After(f, ls);
    var approved := ApproveTx(g, user, at).g;
    ApproveSpends(g, user, at);
    SpentRun(approved, more);
    SpentMeans(Run(approved, more));
    RunInv(approved, more);
    if !IsAutonomous(Run(approved, more)) {
      NotReleased(Run(approved, more));
    }
    if g.status == APPROVAL_PENDING || (g.status == ADMITTED && IsHuman(g)) {
      BareApprovalStrands(approved, more);
      StrandedMeans(Run(approved, more));
    }
  }

  lemma ApproveSpends(g: Gate, user: UserId, at: int)
    requires Inv(g) && ApproveTx(g, user, at).ok
    ensures var approved := ApproveTx(g, user, at).g;
            && Inv(approved) && Spent(approved)
            && (g.status == APPROVAL_PENDING || (g.status == ADMITTED && IsHuman(g)) ==> Stranded(approved))
  {
    hide HistorySound, DecisionSound;
    StepInv(g, Approve(user, at));
    if g.status == APPROVAL_PENDING || (g.status == ADMITTED && IsHuman(g)) {
      NoCreationYet(g);
    }
  }

  lemma SpentMeans(g: Gate)
    requires Spent(g)
    ensures g.jobs == 0
  {
  }

  lemma StrandedMeans(g: Gate)
    requires Stranded(g)
    ensures g.creations == [] && (g.status == ADMITTED || g.status == APPROVAL_PENDING || g.status == FAILED)
  {
  }

  lemma NotReleased(g: Gate)
    requires Inv(g) && !HasAuthority(g) && g.jobs == 0
    ensures g.creations == [] && !Released(g.status)
  {
    hide DecisionSound, VerdictSound, HistorySound;
    NoCreationYet(g);
  }
}
