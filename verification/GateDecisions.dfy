/** What the authority decision of a run is, on any facts and along any run. */
module GateDecisions {
  import opened Catalog
  import opened Lifecycle
  import opened ProductionGate
  import opened ProductionGateTheorems

  /** Which action families belong to which class: two may be deployed autonomously. */
  lemma Families(f: Family)
    ensures Readiness(f) == Some(AUTO_ELIGIBLE_AFTER_ADMISSION) <==>
            f == CREATE_INDEX || f == SET_QUERY_SETTINGS_INDEX_HINT
    ensures Readiness(f) == Some(OPTIMIZER_OWNED_INVERSE_ONLY) <==> f == OPTIMIZER_OWNED_EXACT_INVERSE
    ensures Readiness(f) == Some(PERMANENTLY_HUMAN_GATED) <==>
            f == PRE_EXISTING_INDEX_CHANGE || f == HUMAN_QUERY_SETTINGS_CHANGE || f == SERVER_CONFIG
            || f == SCHEMA_MIGRATION
    ensures Readiness(f) == Some(RECOMMENDATION_ONLY) <==> f == QUERY_REWRITE
    ensures Readiness(f) == Some(FORBIDDEN) <==> f == DESTRUCTIVE_OPERATION || f == TTL_OR_SECURITY_WEAKENING
    ensures Readiness(f) == None <==> f == UNLISTED
  {
  }

  /** The capability the environment binds: a missing snapshot reads as one with that fingerprint. */
  function BoundCapability(f: Facts): string {
    if f.capability.Some? then f.capability.value else "NO_CAPABILITY_SNAPSHOT"
  }

  /** The decision these facts lead to: its authority by the facts alone, and everything it binds. */
  ghost predicate Fits(f: Facts, d: Decision) {
    && f.selected.Some? && f.action.Some? && f.target.Some?
    && d.candidate == f.selected.value.id && Some(d.fingerprint) == f.selected.value.fingerprint
    && d.mode == f.mode && Some(d.telemetry) == f.telemetry
    && (d.authority.AUTONOMOUS? <==>
          && f.mode.FULL_AUTONOMOUS? && f.telemetry == Some(true) && f.productionEligible
          && f.selected.value.policy == Some(AUTO_ELIGIBLE_AFTER_ADMISSION)
          && (f.action == Some(CREATE_INDEX) || f.action == Some(SET_QUERY_SETTINGS_INDEX_HINT)))
    && d.integrity.candidate == d.candidate && d.integrity.fingerprint == d.fingerprint && d.integrity.mode == d.mode
    && d.integrity.authority == d.authority && d.integrity.telemetry == d.telemetry
    && d.integrity.productionEligible == f.productionEligible
    && d.integrity.environment.identity == f.target.value && d.integrity.environment.security == f.credential
    && d.integrity.environment.capability == BoundCapability(f)
  }

  lemma DecidedFits(f: Facts)
    requires Decidable(f)
    ensures Fits(f, Decided(f))
  {
  }

  /** A decision is taken exactly on an ADMITTED run without one whose rows are complete, and then fits the
      facts of that moment; an existing decision is never replaced, and nothing else changes. */
  lemma DecideExactly(g: Gate)
    ensures var g' := Apply(g, Decide);
            if g.decision.None? && g.status == ADMITTED && g.facts.selected.Some? && g.facts.action.Some?
               && g.facts.target.Some? && g.facts.telemetry.Some? && g.facts.selected.value.fingerprint.Some?
            then DecideTx(g).ok && g'.decision.Some? && Fits(g.facts, g'.decision.value)
                 && g' == g.(decision := g'.decision, evidence := Some(g.facts))
            else g' == g && (DecideTx(g).ok <==> g.decision.Some?)
  {
    if g.decision.None? && Decidable(g.facts) {
      DecidedFits(g.facts);
    }
  }

  /** No other label writes a decision. */
  lemma OnlyDecideDecides(g: Gate, l: Label)
    requires !l.Decide?
    ensures Apply(g, l).decision == g.decision && Apply(g, l).evidence == g.evidence
  {
    hide Admits, ValidTransition;
  }

  /** The decision was taken on the facts the run had at one of its Decide labels, when it was ADMITTED. */
  ghost predicate TakenAt(f: Facts, ls: seq<Label>, i: nat, d: Decision)
    requires i < |ls|
  {
    ls[i].Decide? && After(f, ls[..i]).status == ADMITTED && Fits(After(f, ls[..i]).facts, d)
  }

  /** In every run, with facts drifting arbitrarily, the decision is AUTONOMOUS exactly when at the moment it
      was taken the mode was FULL_AUTONOMOUS, telemetry and admission were production eligible, the policy
      was AUTO_ELIGIBLE_AFTER_ADMISSION and the action one of CREATE_INDEX and
      SET_QUERY_SETTINGS_INDEX_HINT. */
  lemma {:induction false} DecisionIsOfItsMoment(f: Facts, ls: seq<Label>)
    ensures var g := After(f, ls);
            g.decision.Some? ==> exists i :: 0 <= i < |ls| && TakenAt(f, ls, i, g.decision.value)
  {
    hide Apply, Fits;
    if ls != [] {
      var n := |ls| - 1;
      var init, last := ls[..n], ls[n];
      assert ls == init + [last];
      RunConcat(Initial(f), init, [last]);
      var g := After(f, init);
      OneLabel(g, last);
      DecisionIsOfItsMoment(f, init);
      if last.Decide? {
        DecideExactly(g);
      } else {
        OnlyDecideDecides(g, last);
      }
      if Apply(g, last).decision == g.decision {
        if g.decision.Some? {
          var i :| 0 <= i < |init| && TakenAt(f, init, i, g.decision.value);
          assert init[..i] == ls[..i];
          assert TakenAt(f, ls, i, g.decision.value);
        }
      } else {
        assert ls[..n] == init;
        assert TakenAt(f, ls, n, Apply(g, last).decision.value);
      }
    }
  }

  // ------------------------------------------------------------ the transactions around it

  /** A pending request of somebody else that has not expired. */
  ghost predicate Approvable(g: Gate, user: UserId, at: int) {
    match g.request
    case None => false
    case Some(Approval(_, _, requester, expires, status)) => status == PENDING && expires > at && requester != user
  }

  /** The row after a verdict. */
  function WithVerdict(g: Gate, status: ApprovalStatus, user: UserId, granted: bool): Gate
    requires g.request.Some?
  {
    var r := g.request.value;
    g.(request := Some(Approval(r.candidate, r.fingerprint, r.requester, r.expires, status)),
       verdicts := g.verdicts + [Verdict(user, granted)])
  }

  /** One request per run: another one is answered by whether it names the same candidate and fingerprint. */
  lemma RequestExactly(g: Gate, candidate: string, fingerprint: string, requester: UserId, expires: int)
    ensures var reply := RequestTx(g, candidate, fingerprint, requester, expires);
            match g.request
            case None =>
              reply == Reply(g.(request := Some(Approval(candidate, fingerprint, requester, expires, PENDING))), true)
            case Some(Approval(c, f, _, _, _)) => reply == Reply(g, c == candidate && f == fingerprint)
  {
  }

  /** The verdicts: accepted exactly on an approvable request, and, where they are bound to the run, only
      while it waits for approval.  The bare one changes the request alone; the continued one also approves
      the run and queues its one job; a refusal completes the run.  What is not accepted changes nothing. */
  lemma VerdictsExactly(g: Gate, user: UserId, at: int)
    ensures ApproveTx(g, user, at)
            == if Approvable(g, user, at) then Reply(WithVerdict(g, APPROVAL_GRANTED, user, true), true)
               else Reply(g, false)
    ensures ApproveAndEnqueueTx(g, user, at)
            == if Approvable(g, user, at) && g.status == APPROVAL_PENDING
               then Reply(WithVerdict(g, APPROVAL_GRANTED, user, true).(status := APPROVED,
                                                                       jobs := if g.jobs > 1 then g.jobs else 1), true)
               else Reply(g, false)
    ensures RejectTx(g, user, at)
            == if Approvable(g, user, at) && g.status == APPROVAL_PENDING
               then Reply(WithVerdict(g, APPROVAL_REFUSED, user, false).(status := COMPLETED), true)
               else Reply(g, false)
  {
  }

  /** The orchestrator moves an ADMITTED run on once it is decided: to APPROVED if the decision is
      autonomous, and otherwise to APPROVAL_PENDING with the request for what was decided. */
  lemma PromoteExactly(g: Gate)
    ensures PromoteTx(g).g.status
            == if g.status == ADMITTED && IsAutonomous(g) then APPROVED
               else if g.status == ADMITTED && IsHuman(g) && RequestedAsDecided(g) then APPROVAL_PENDING
               else g.status
    ensures PromoteTx(g).g == g.(status := PromoteTx(g).g.status)
    ensures PromoteTx(g).ok <==> PromoteTx(g).g.status != g.status
  {
  }

  ghost predicate RequestedAsDecided(g: Gate) {
    g.decision.Some? && g.request.Some?
    && g.request.value.candidate == g.decision.value.candidate
    && g.request.value.fingerprint == g.decision.value.fingerprint
  }

  /** A load is remembered with what it saw, once per worker; a creation uses its worker's load. */
  lemma LoadAndCreateExactly(g: Gate, w: WorkerId, at: int)
    ensures var admitted := g.decision.Some? && w !in g.loads
                            && Admits(Load(g.status, at, g.facts, g.decision.value, g.request));
            LoadTx(g, w, at)
            == if admitted
               then Reply(g.(loads := g.loads[w := Load(g.status, at, g.facts, g.decision.value, g.request)]), true)
               else Reply(g, false)
    ensures CreateTx(g, w)
            == if w in g.loads && (g.loads[w].runStatus == APPROVED || g.loads[w].runStatus == DEPLOYING
                                   || g.loads[w].runStatus == DEPLOYED)
               then Reply(g.(creations := g.creations + [g.loads[w]]), true) else Reply(g, false)
  {
    hide Admits;
  }

  /** Other stages follow the lifecycle graph, but only fail a run that waits for its decision or approval. */
  lemma AdvanceExactly(g: Gate, next: RunStatus)
    ensures Apply(g, Advance(next)).status
            == if ValidTransition(g.status, next)
                  && ((g.status == ADMITTED || g.status == APPROVAL_PENDING) ==> next == FAILED)
               then next else g.status
    ensures Apply(g, Advance(next)) == g.(status := Apply(g, Advance(next)).status)
  {
    hide ValidTransition;
  }

  // ------------------------------------------------------------ the load

  /** A load is admitted on a decision exactly when nothing the decision bound has changed since the facts it
      was taken on, the action is CREATE_INDEX, the candidate is ADMITTED, an autonomous one still has its
      policy, and any other has a granted, live approval of this very candidate. */
  lemma AdmittedExactly(before: Facts, now: Facts, status: RunStatus, at: int, request: Option<Approval>)
    requires Decidable(before)
    ensures var c := before.selected.value;
            Admits(Load(status, at, now, Decided(before), request)) <==>
            && now.selected.Some? && now.selected.value.id == c.id
            && now.selected.value.fingerprint == c.fingerprint
            && now.action == Some(CREATE_INDEX) && now.selected.value.status == CANDIDATE_ADMITTED
            && now.mode == before.mode && now.productionEligible == before.productionEligible
            && now.target == before.target && now.credential == before.credential
            && BoundCapability(now) == BoundCapability(before)
            && (Automatic(before) ==> now.selected.value.policy == Some(AUTO_ELIGIBLE_AFTER_ADMISSION))
            && (!Automatic(before) ==>
                  && request.Some? && request.value.candidate == c.id
                  && Some(request.value.fingerprint) == c.fingerprint
                  && request.value.status == APPROVAL_GRANTED && request.value.expires > at)
  {
  }
}
