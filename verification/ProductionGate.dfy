/** The gate in front of production: the authority decision of a run, its approval request, the
    continuation job, and what a deployment checks before it may touch the target.

    Every transaction is one step.  The facts read by the transactions may drift arbitrarily in
    between; fingerprints are represented by the values they digest, and each call carries the
    time its own clock showed. */
module ProductionGate {
  import opened Catalog
  import opened Lifecycle

  type UserId = nat

  datatype Mode = APPROVAL_CONTROLLED | FULL_AUTONOMOUS

  datatype Family =
    | CREATE_INDEX | SET_QUERY_SETTINGS_INDEX_HINT | OPTIMIZER_OWNED_EXACT_INVERSE | PRE_EXISTING_INDEX_CHANGE
    | HUMAN_QUERY_SETTINGS_CHANGE | SERVER_CONFIG | SCHEMA_MIGRATION | QUERY_REWRITE | DESTRUCTIVE_OPERATION
    | TTL_OR_SECURITY_WEAKENING | UNLISTED

  datatype Classification =
    | AUTO_ELIGIBLE_AFTER_ADMISSION | PERMANENTLY_HUMAN_GATED | RECOMMENDATION_ONLY | FORBIDDEN
    | OPTIMIZER_OWNED_INVERSE_ONLY

  /** The readiness matrix. */
  function Readiness(f: Family): Option<Classification> {
    match f
    case CREATE_INDEX => Some(AUTO_ELIGIBLE_AFTER_ADMISSION)
    case SET_QUERY_SETTINGS_INDEX_HINT => Some(AUTO_ELIGIBLE_AFTER_ADMISSION)
    case OPTIMIZER_OWNED_EXACT_INVERSE => Some(OPTIMIZER_OWNED_INVERSE_ONLY)
    case PRE_EXISTING_INDEX_CHANGE => Some(PERMANENTLY_HUMAN_GATED)
    case HUMAN_QUERY_SETTINGS_CHANGE => Some(PERMANENTLY_HUMAN_GATED)
    case SERVER_CONFIG => Some(PERMANENTLY_HUMAN_GATED)
    case SCHEMA_MIGRATION => Some(PERMANENTLY_HUMAN_GATED)
    case QUERY_REWRITE => Some(RECOMMENDATION_ONLY)
    case DESTRUCTIVE_OPERATION => Some(FORBIDDEN)
    case TTL_OR_SECURITY_WEAKENING => Some(FORBIDDEN)
    case UNLISTED => None
  }

  predicate AutoEligible(f: Family) {
    Readiness(f) == Some(AUTO_ELIGIBLE_AFTER_ADMISSION)
  }

  datatype CandidateStatus = PROPOSED | EVALUATED | CANDIDATE_ADMITTED | CANDIDATE_REJECTED

  datatype Candidate = Candidate(id: string, fingerprint: Option<string>, status: CandidateStatus,
                                 policy: Option<Classification>)

  datatype Target = Target(id: string, connection: string, mode: Mode, state: string, active: bool)

  datatype Credential = Credential(id: string, keyVersion: int, kind: string)

  /** The rows the gate reads: the run's mode, the candidate its admission selected and that
      candidate's action, the snapshot's telemetry verdict, and the target's environment. */
  datatype Facts = Facts(
    mode: Mode, selected: Option<Candidate>, productionEligible: bool, action: Option<Family>, telemetry: Option<bool>,
    target: Option<Target>, capability: Option<string>, credential: Option<Credential>)

  datatype Environment = Environment(identity: Target, capability: string, security: Option<Credential>)

  const NO_CAPABILITY: string := "NO_CAPABILITY_SNAPSHOT"

  function EnvironmentBinding(target: Target, capability: Option<string>, credential: Option<Credential>): Environment {
    Environment(target, if capability.Some? then capability.value else NO_CAPABILITY, credential)
  }

  datatype Authority = AUTONOMOUS | HUMAN_REQUIRED

  /** What the integrity fingerprint digests. */
  datatype Integrity = Integrity(
    candidate: string, fingerprint: string, mode: Mode, authority: Authority, telemetry: bool, productionEligible: bool,
    environment: Environment)

  datatype Decision = Decision(
    candidate: string, fingerprint: string, mode: Mode, authority: Authority, telemetry: bool, integrity: Integrity)

  datatype ApprovalStatus = PENDING | APPROVAL_GRANTED | APPROVAL_REFUSED

  datatype Approval = Approval(candidate: string, fingerprint: string, requester: UserId, expires: int,
                               status: ApprovalStatus)

  datatype Verdict = Verdict(user: UserId, granted: bool)

  /** What one accepted load saw. */
  datatype Load = Load(runStatus: RunStatus, at: int, facts: Facts, decision: Decision, approval: Option<Approval>)

  /** One run's rows, and the history the claims are about: the facts the decision was taken on,
      the loads of live workers, and the load behind each index creation. */
  datatype Gate = Gate(
    status: RunStatus, facts: Facts, decision: Option<Decision>, evidence: Option<Facts>, request: Option<Approval>,
    verdicts: seq<Verdict>, jobs: nat, loads: map<WorkerId, Load>, creations: seq<Load>)

  datatype Reply = Reply(g: Gate, ok: bool)

  // ------------------------------------------------------------ decide_for_run

  /** The five conditions of an autonomous deployment. */
  predicate Automatic(f: Facts)
    requires Decidable(f)
  {
    f.mode.FULL_AUTONOMOUS? && f.telemetry.value && f.productionEligible
    && f.selected.value.policy == Some(AUTO_ELIGIBLE_AFTER_ADMISSION) && AutoEligible(f.action.value)
  }

  predicate Decidable(f: Facts) {
    f.selected.Some? && f.selected.value.fingerprint.Some? && f.action.Some? && f.target.Some? && f.telemetry.Some?
  }

  function Decided(f: Facts): Decision
    requires Decidable(f)
  {
    var c := f.selected.value;
    var authority := if Automatic(f) then AUTONOMOUS else HUMAN_REQUIRED;
    var environment := EnvironmentBinding(f.target.value, f.capability, f.credential);
    Decision(c.id, c.fingerprint.value, f.mode, authority, f.telemetry.value,
             Integrity(c.id, c.fingerprint.value, f.mode, authority, f.telemetry.value, f.productionEligible,
                       environment))
  }

  function DecideTx(g: Gate): Reply {
    if g.decision.Some? then Reply(g, true)
    else if g.status != ADMITTED || !Decidable(g.facts) then Reply(g, false)
    else Reply(g.(decision := Some(Decided(g.facts)), evidence := Some(g.facts)), true)
  }

  // ------------------------------------------------------------ approvals

  function RequestTx(g: Gate, candidate: string, fingerprint: string, requester: UserId, expires: int): Reply {
    match g.request
    case Some(r) => Reply(g, r.candidate == candidate && r.fingerprint == fingerprint)
    case None => Reply(g.(request := Some(Approval(candidate, fingerprint, requester, expires, PENDING))), true)
  }

  predicate Open(g: Gate, user: UserId, at: int) {
    && g.request.Some? && g.request.value.status.PENDING? && g.request.value.expires > at
    && g.request.value.requester != user
  }

  /** The bare `approve`: it records the verdict and nothing else. */
  function ApproveTx(g: Gate, user: UserId, at: int): Reply {
    if !Open(g, user, at) then Reply(g, false)
    else
      Reply(g.(request := Some(g.request.value.(status := APPROVAL_GRANTED)),
               verdicts := g.verdicts + [Verdict(user, true)]), true)
  }

  function ApproveAndEnqueueTx(g: Gate, user: UserId, at: int): Reply {
    if !Open(g, user, at) || g.status != APPROVAL_PENDING then Reply(g, false)
    else
      Reply(g.(request := Some(g.request.value.(status := APPROVAL_GRANTED)),
               verdicts := g.verdicts + [Verdict(user, true)],
               status := APPROVED, jobs := if g.jobs == 0 then 1 else g.jobs), true)
  }

  function RejectTx(g: Gate, user: UserId, at: int): Reply {
    if !Open(g, user, at) || g.status != APPROVAL_PENDING then Reply(g, false)
    else
      Reply(g.(request := Some(g.request.value.(status := APPROVAL_REFUSED)),
               verdicts := g.verdicts + [Verdict(user, false)],
               status := COMPLETED), true)
  }

  // ------------------------------------------------------------ _load_bound_action

  /** The checks before the approval query. */
  predicate Bound(f: Facts, d: Decision) {
    && f.selected.Some? && f.action.Some? && f.target.Some?
    && f.selected.value.id == d.candidate
    && f.selected.value.fingerprint == Some(d.fingerprint)
    && f.action == Some(CREATE_INDEX) && AutoEligible(CREATE_INDEX)
    && f.selected.value.status.CANDIDATE_ADMITTED?
    && f.mode == d.mode
    && Integrity(d.candidate, d.fingerprint, d.mode, d.authority, d.telemetry, f.productionEligible,
                 EnvironmentBinding(f.target.value, f.capability, f.credential)) == d.integrity
    && (d.authority.AUTONOMOUS? ==>
          f.mode.FULL_AUTONOMOUS? && d.telemetry && f.productionEligible
          && f.selected.value.policy == Some(AUTO_ELIGIBLE_AFTER_ADMISSION))
  }

  /** The approval query: granted, unexpired, for the selected candidate and its fingerprint. */
  predicate Current(r: Option<Approval>, d: Decision, at: int) {
    r.Some? && r.value.candidate == d.candidate && r.value.fingerprint == d.fingerprint
    && r.value.status.APPROVAL_GRANTED? && r.value.expires > at
  }

  predicate Admits(l: Load) {
    Bound(l.facts, l.decision) && (l.decision.authority.HUMAN_REQUIRED? ==> Current(l.approval, l.decision, l.at))
  }

  function LoadTx(g: Gate, w: WorkerId, at: int): Reply {
    if g.decision.None? || w in g.loads then Reply(g, false)
    else
      var l := Load(g.status, at, g.facts, g.decision.value, g.request);
      if Admits(l) then Reply(g.(loads := g.loads[w := l]), true) else Reply(g, false)
  }

  /** Statuses a run may be deployed in. */
  predicate MayDeploy(s: RunStatus) {
    s == APPROVED || s == DEPLOYING || s == DEPLOYED
  }

  /** A deployment that got past the load, with a run status a deployment may have, creates the
      index.  What it does before and afterwards is the deployment protocol's. */
  function CreateTx(g: Gate, w: WorkerId): Reply {
    if w in g.loads && MayDeploy(g.loads[w].runStatus) then Reply(g.(creations := g.creations + [g.loads[w]]), true)
    else Reply(g, false)
  }

  // ------------------------------------------------------------ the run

  datatype Label =
    | Decide
    | Request(candidate: string, fingerprint: string, requester: UserId, expires: int)
    /** The orchestrator moves a decided run on: to APPROVED, or with its request to APPROVAL_PENDING. */
    | Promote
    | Approve(user: UserId, at: int)
    | ApproveAndEnqueue(user: UserId, at: int)
    | Reject(user: UserId, at: int)
    | LoadBound(w: WorkerId, at: int)
    | Create(w: WorkerId)
    /** A deployment call ends, or its process dies. */
    | Crash(w: WorkerId)
    /** Other stages, and the deployment itself, move the run along the lifecycle graph, but not out
        of the gate's statuses. */
    | Advance(next: RunStatus)
    /** Any of the rows read change. */
    | Drift(facts: Facts)

  function PromoteTx(g: Gate): Reply {
    if g.status != ADMITTED || g.decision.None? then Reply(g, false)
    else if g.decision.value.authority.AUTONOMOUS? then Reply(g.(status := APPROVED), true)
    else if g.request.Some? && g.request.value.candidate == g.decision.value.candidate
            && g.request.value.fingerprint == g.decision.value.fingerprint
    then Reply(g.(status := APPROVAL_PENDING), true)
    else Reply(g, false)
  }

  predicate OtherStage(current: RunStatus, next: RunStatus) {
    ValidTransition(current, next) && (next == FAILED || (current != ADMITTED && current != APPROVAL_PENDING))
  }

  function Apply(g: Gate, l: Label): Gate {
    match l
    case Decide => DecideTx(g).g
    case Request(c, f, r, e) => RequestTx(g, c, f, r, e).g
    case Promote => PromoteTx(g).g
    case Approve(user, at) => ApproveTx(g, user, at).g
    case ApproveAndEnqueue(user, at) => ApproveAndEnqueueTx(g, user, at).g
    case Reject(user, at) => RejectTx(g, user, at).g
    case LoadBound(w, at) => LoadTx(g, w, at).g
    case Create(w) => CreateTx(g, w).g
    case Crash(w) => g.(loads := g.loads - {w})
    case Advance(next) => if OtherStage(g.status, next) then g.(status := next) else g
    case Drift(f) => g.(facts := f)
  }

  function Run(g: Gate, ls: seq<Label>): Gate
    decreases |ls|
  {
    if ls == [] then g else Run(Apply(g, ls[0]), ls[1..])
  }

  function Initial(f: Facts): Gate {
    Gate(CREATED, f, None, None, None, [], 0, map[], [])
  }
}
