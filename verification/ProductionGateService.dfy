/** The authority, approval and load methods as they are written, on one run's rows.  Each leaves
    exactly what its transaction leaves, or refuses and leaves everything alone. */
module ProductionGateService {
  import opened Catalog
  import opened Lifecycle
  import opened ProductionGate
  import opened GateDecisions

  datatype LoadError =
    | AUTHORITY_BINDING_MISSING | CANDIDATE_FINGERPRINT_DRIFT | UNSUPPORTED_TYPED_PRODUCTION_ACTION
    | CANDIDATE_NOT_ADMITTED
    | DEPLOYMENT_MODE_DRIFT | PREDEPLOYMENT_EVIDENCE_DRIFT | AUTONOMY_PREREQUISITE_DRIFT | CURRENT_APPROVAL_REQUIRED

  /** The checks of a load, in the order they are made. */
  const CHECKS: seq<LoadError> :=
    [AUTHORITY_BINDING_MISSING, CANDIDATE_FINGERPRINT_DRIFT, UNSUPPORTED_TYPED_PRODUCTION_ACTION,
     CANDIDATE_NOT_ADMITTED, DEPLOYMENT_MODE_DRIFT, PREDEPLOYMENT_EVIDENCE_DRIFT,
     AUTONOMY_PREREQUISITE_DRIFT, CURRENT_APPROVAL_REQUIRED]

  /** The rows a load joins are there and bind one candidate. */
  predicate Joined(f: Facts, decision: Option<Decision>) {
    && f.selected.Some? && f.action.Some? && f.target.Some? && decision.Some?
    && f.selected.value.id == decision.value.candidate
  }

  /** What each check demands of rows that are there. */
  predicate Demands(e: LoadError, f: Facts, d: Decision, request: Option<Approval>, now: int)
    requires Joined(f, Some(d))
  {
    var c := f.selected.value;
    match e
    case AUTHORITY_BINDING_MISSING => true
    case CANDIDATE_FINGERPRINT_DRIFT => c.fingerprint == Some(d.fingerprint)
    case UNSUPPORTED_TYPED_PRODUCTION_ACTION => f.action == Some(CREATE_INDEX)
    case CANDIDATE_NOT_ADMITTED => c.status.CANDIDATE_ADMITTED?
    case DEPLOYMENT_MODE_DRIFT => f.mode == d.mode
    case PREDEPLOYMENT_EVIDENCE_DRIFT =>
      d.integrity == Integrity(d.candidate, d.fingerprint, d.mode, d.authority, d.telemetry, f.productionEligible,
                               EnvironmentBinding(f.target.value, f.capability, f.credential))
    case AUTONOMY_PREREQUISITE_DRIFT =>
      d.authority.AUTONOMOUS? ==>
        f.mode.FULL_AUTONOMOUS? && d.telemetry && f.productionEligible
        && c.policy == Some(AUTO_ELIGIBLE_AFTER_ADMISSION)
    case CURRENT_APPROVAL_REQUIRED => d.authority.HUMAN_REQUIRED? ==> Current(request, d, now)
  }

  predicate Passes(e: LoadError, f: Facts, decision: Option<Decision>, request: Option<Approval>, now: int) {
    Joined(f, decision) && Demands(e, f, decision.value, request, now)
  }

  /** The binding is there exactly when no joined row is missing and the decision names the selected candidate. */
  lemma BindingThere(f: Facts, decision: Option<Decision>, request: Option<Approval>, now: int)
    ensures Passes(AUTHORITY_BINDING_MISSING, f, decision, request, now) <==>
            match (f.selected, f.action, f.target, decision)
            case (Some(c), Some(_), Some(_), Some(d)) => d.candidate == c.id
            case _ => false
  {
  }

  /** A load is admitted exactly when every check passes. */
  lemma AdmittedIff(status: RunStatus, f: Facts, d: Decision, request: Option<Approval>, now: int)
    ensures Admits(Load(status, now, f, d, request)) <==>
            forall k :: 0 <= k < |CHECKS| ==> Passes(CHECKS[k], f, Some(d), request, now)
  {
    var passes := (k: int) requires 0 <= k < |CHECKS| => Passes(CHECKS[k], f, Some(d), request, now);
    assert Admits(Load(status, now, f, d, request)) <==>
           passes(0) && passes(1) && passes(2) && passes(3) && passes(4) && passes(5) && passes(6) && passes(7);
  }

  class Rows {
    var status: RunStatus
    var facts: Facts
    var decision: Option<Decision>
    var evidence: Option<Facts>
    var request: Option<Approval>
    var verdicts: seq<Verdict>
    var jobs: nat
    var loads: map<WorkerId, Load>
    var creations: seq<Load>

    constructor (f: Facts)
      ensures State() == Initial(f)
    {
      status, facts, decision, evidence, request := CREATED, f, None, None, None;
      verdicts, jobs, loads, creations := [], 0, map[], [];
    }

    function State(): Gate
      reads this
    {
      Gate(status, facts, decision, evidence, request, verdicts, jobs, loads, creations)
    }

    /** Write once: an existing decision is returned as it is. */
    method DecideForRun() returns (ok: bool, automatic: bool)
      modifies this
      ensures Reply(State(), ok) == DecideTx(old(State()))
      ensures ok ==> decision.Some? && (automatic <==> decision.value.authority.AUTONOMOUS?)
      ensures old(decision).Some? ==> ok && State() == old(State())
      ensures old(decision).None? && ok ==> old(status) == ADMITTED && Fits(old(facts), decision.value)
    {
      DecideExactly(State());
      hide Fits;
      if decision.Some? {
        return true, decision.value.authority.AUTONOMOUS?;
      }
      if status != ADMITTED {
        return false, false;
      }
      if facts.selected.None? || facts.selected.value.fingerprint.None? {
        return false, false;
      }
      if facts.action.None? || facts.target.None? || facts.telemetry.None? {
        return false, false;
      }
      var c := facts.selected.value;
      automatic := facts.mode.FULL_AUTONOMOUS? && facts.telemetry.value && facts.productionEligible
                   && c.policy == Some(AUTO_ELIGIBLE_AFTER_ADMISSION) && AutoEligible(facts.action.value);
      var authority := if automatic then AUTONOMOUS else HUMAN_REQUIRED;
      var environment := EnvironmentBinding(facts.target.value, facts.capability, facts.credential);
      var integrity := Integrity(c.id, c.fingerprint.value, facts.mode, authority, facts.telemetry.value,
                                 facts.productionEligible, environment);
      decision := Some(Decision(c.id, c.fingerprint.value, facts.mode, authority, facts.telemetry.value, integrity));
      evidence := Some(facts);
      ok := true;
    }

    method RequestApproval(candidate: string, fingerprint: string, requester: UserId, now: int,
                           ttl: nat) returns (ok: bool)
      modifies this
      ensures Reply(State(), ok) == RequestTx(old(State()), candidate, fingerprint, requester, now + ttl)
    {
      if request.Some? {
        return request.value.candidate == candidate && request.value.fingerprint == fingerprint;
      }
      request := Some(Approval(candidate, fingerprint, requester, now + ttl, PENDING));
      return true;
    }

    method ApproveOnly(user: UserId, now: int) returns (ok: bool)
      modifies this
      ensures Reply(State(), ok) == ApproveTx(old(State()), user, now)
    {
      if request.None? || !request.value.status.PENDING? || request.value.expires <= now {
        return false;
      }
      if request.value.requester == user {
        return false;
      }
      request := Some(request.value.(status := APPROVAL_GRANTED));
      verdicts := verdicts + [Verdict(user, true)];
      return true;
    }

    method ApproveAndEnqueueContinuation(user: UserId, now: int) returns (ok: bool)
      modifies this
      ensures Reply(State(), ok) == ApproveAndEnqueueTx(old(State()), user, now)
    {
      if request.None? {
        return false;
      }
      if !request.value.status.PENDING? || request.value.expires <= now || request.value.requester == user {
        return false;
      }
      if status != APPROVAL_PENDING {
        return false;
      }
      request := Some(request.value.(status := APPROVAL_GRANTED));
      verdicts := verdicts + [Verdict(user, true)];
      status := APPROVED;
      if jobs == 0 {
        jobs := 1;
      }
      return true;
    }

    method RejectAndCompleteRun(user: UserId, now: int) returns (ok: bool)
      modifies this
      ensures Reply(State(), ok) == RejectTx(old(State()), user, now)
    {
      if request.None? {
        return false;
      }
      if !request.value.status.PENDING? || request.value.expires <= now || request.value.requester == user {
        return false;
      }
      if status != APPROVAL_PENDING {
        return false;
      }
      request := Some(request.value.(status := APPROVAL_REFUSED));
      verdicts := verdicts + [Verdict(user, false)];
      status := COMPLETED;
      return true;
    }

    /** The checks in their order; the first that fails names the error. */
    method LoadBoundAction(now: int) returns (error: Option<LoadError>)
      ensures error.None? <==> decision.Some? && Admits(Load(status, now, facts, decision.value, request))
      ensures error.Some? ==>
                exists k :: 0 <= k < |CHECKS| && CHECKS[k] == error.value
                            && !Passes(CHECKS[k], facts, decision, request, now)
                            && forall j :: 0 <= j < k ==> Passes(CHECKS[j], facts, decision, request, now)
    {
      if facts.selected.None? || facts.action.None? || facts.target.None? || decision.None?
         || facts.selected.value.id != decision.value.candidate {
        assert CHECKS[0] == AUTHORITY_BINDING_MISSING;
        return Some(AUTHORITY_BINDING_MISSING);
      }
      var c, d := facts.selected.value, decision.value;
      if c.fingerprint != Some(d.fingerprint) {
        assert CHECKS[1] == CANDIDATE_FINGERPRINT_DRIFT;
        return Some(CANDIDATE_FINGERPRINT_DRIFT);
      }
      if facts.action != Some(CREATE_INDEX) || !AutoEligible(facts.action.value) {
        assert CHECKS[2] == UNSUPPORTED_TYPED_PRODUCTION_ACTION;
        return Some(UNSUPPORTED_TYPED_PRODUCTION_ACTION);
      }
      if !c.status.CANDIDATE_ADMITTED? {
        assert CHECKS[3] == CANDIDATE_NOT_ADMITTED;
        return Some(CANDIDATE_NOT_ADMITTED);
      }
      if facts.mode != d.mode {
        assert CHECKS[4] == DEPLOYMENT_MODE_DRIFT;
        return Some(DEPLOYMENT_MODE_DRIFT);
      }
      var environment := EnvironmentBinding(facts.target.value, facts.capability, facts.credential);
      var expected := Integrity(d.candidate, d.fingerprint, d.mode, d.authority, d.telemetry,
                                facts.productionEligible, environment);
      if expected != d.integrity {
        assert CHECKS[5] == PREDEPLOYMENT_EVIDENCE_DRIFT;
        return Some(PREDEPLOYMENT_EVIDENCE_DRIFT);
      }
      if d.authority.AUTONOMOUS?
         && !(facts.mode.FULL_AUTONOMOUS? && d.telemetry && facts.productionEligible
              && c.policy == Some(AUTO_ELIGIBLE_AFTER_ADMISSION)) {
        assert CHECKS[6] == AUTONOMY_PREREQUISITE_DRIFT;
        return Some(AUTONOMY_PREREQUISITE_DRIFT);
      }
      if d.authority.HUMAN_REQUIRED? && !Current(request, d, now) {
        assert CHECKS[7] == CURRENT_APPROVAL_REQUIRED;
        return Some(CURRENT_APPROVAL_REQUIRED);
      }
      return None;
    }
  }
}
