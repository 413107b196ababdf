/** When the gate opens: which facts let a run deploy at all, and which without anybody asked. */
module GateScenarios {
  import opened Catalog
  import opened Lifecycle
  import opened ProductionGate
  import opened ProductionGateTheorems

  /** What every deployment needs of the facts, however it is authorized. */
  predicate DeployableFacts(f: Facts) {
    Decidable(f) && f.action.value.CREATE_INDEX? && f.selected.value.status.CANDIDATE_ADMITTED?
  }

  // ------------------------------------------------------------ steps towards a deployment

  /** An undecided run that has reached the authority decision. */
  ghost predicate Undecided(g: Gate, w: WorkerId) {
    g.status == ADMITTED && g.decision.None? && g.request.None? && Decidable(g.facts) && w !in g.loads && g.jobs == 0
  }

  /** On unchanged facts the checks before the approval query are those a deployment always needs. */
  lemma FreshDecisionIsBound(f: Facts)
    requires Decidable(f)
    ensures Bound(f, Decided(f)) <==> DeployableFacts(f)
  {
  }

  function DecidedGate(g: Gate): Gate
    requires Decidable(g.facts)
  {
    g.(decision := Some(Decided(g.facts)), evidence := Some(g.facts))
  }

  /** The last two labels of a deployment on unchanged facts. */
  lemma LoadAndCreate(g: Gate, w: WorkerId, at: int)
    requires Decidable(g.facts) && g.decision == Some(Decided(g.facts)) && w !in g.loads
    ensures var end := Apply(Apply(g, LoadBound(w, at)), Create(w));
            |end.creations| == |g.creations| + 1 <==>
            DeployableFacts(g.facts) && MayDeploy(g.status)
            && (Automatic(g.facts) || Current(g.request, Decided(g.facts), at))
  {
    hide Bound, Current;
    FreshDecisionIsBound(g.facts);
  }

  /** Without anybody asked, an admitted run deploys exactly under the five conditions. */
  lemma AutonomousPath(g: Gate, w: WorkerId, at: int)
    requires Undecided(g, w)
    ensures var end := Apply(Apply(Apply(Apply(g, Decide), Promote), LoadBound(w, at)), Create(w));
            |end.creations| == |g.creations| + 1 <==> Automatic(g.facts) && DeployableFacts(g.facts)
  {
    hide DeployableFacts, Bound, Admits;
    var promoted := Apply(Apply(g, Decide), Promote);
    assert promoted == DecidedGate(g).(status := if Automatic(g.facts) then APPROVED else ADMITTED);
    LoadAndCreate(promoted, w, at);
  }

  /** A decided run whose approval was asked for. */
  function Waiting(g: Gate, requester: UserId, expires: int): Gate
    requires Decidable(g.facts)
  {
    var d := Decided(g.facts);
    DecidedGate(g).(request := Some(Approval(d.candidate, d.fingerprint, requester, expires, PENDING)),
                    status := APPROVAL_PENDING)
  }

  lemma AskedForApproval(g: Gate, w: WorkerId, requester: UserId, expires: int)
    requires Undecided(g, w) && !Automatic(g.facts)
    ensures var d := Decided(g.facts);
            Apply(Apply(Apply(g, Decide), Request(d.candidate, d.fingerprint, requester, expires)), Promote)
            == Waiting(g, requester, expires)
  {
    hide Automatic;
  }

  /** With an approval asked for, a run that is not autonomous deploys exactly when the approver is not
      the requester and the approval is live both when it is given and at the load. */
  lemma ApprovedPath(g: Gate, w: WorkerId, requester: UserId, expires: int, user: UserId, at: int, later: int)
    requires Undecided(g, w) && !Automatic(g.facts)
    ensures var d := Decided(g.facts);
            var asked := Request(d.candidate, d.fingerprint, requester, expires);
            var waiting := Apply(Apply(Apply(g, Decide), asked), Promote);
            var end := Apply(Apply(Apply(waiting, ApproveAndEnqueue(user, at)), LoadBound(w, later)), Create(w));
            && waiting.status == APPROVAL_PENDING
            && (|end.creations| == |g.creations| + 1 <==>
                  user != requester && expires > at && expires > later && DeployableFacts(g.facts))
  {
    hide Automatic, Decided, DeployableFacts, Bound, Admits, LoadTx, CreateTx;
    AskedForApproval(g, w, requester, expires);
    var waiting := Waiting(g, requester, expires);
    var approved := Apply(waiting, ApproveAndEnqueue(user, at));
    LoadAndCreate(approved, w, later);
  }

  // ------------------------------------------------------------ no drift

  predicate Undrifted(ls: seq<Label>) {
    forall l :: l in ls ==> !l.Drift?
  }

  predicate Unattended(ls: seq<Label>) {
    forall l :: l in ls ==> !l.ApproveAndEnqueue?
  }

  /** Everything was decided and loaded on the same facts. */
  ghost predicate Steady(f: Facts, g: Gate) {
    && g.facts == f && (g.evidence.Some? ==> g.evidence == Some(f))
    && (forall w :: w in g.loads ==> g.loads[w].facts == f)
    && (forall l :: l in g.creations ==> l.facts == f)
  }

  lemma SteadyStep(f: Facts, g: Gate, l: Label)
    requires Steady(f, g) && !l.Drift?
    ensures Steady(f, Apply(g, l))
  {
    hide Admits, Decided, Decidable, ValidTransition;
  }

  lemma {:induction false} SteadyRun(f: Facts, g: Gate, ls: seq<Label>)
    requires Steady(f, g) && Undrifted(ls)
    ensures Steady(f, Run(g, ls))
    decreases |ls|
  {
    hide Steady, Apply;
    if ls != [] {
      SteadyStep(f, g, ls[0]);
      SteadyRun(f, Apply(g, ls[0]), ls[1..]);
    }
  }

  ghost predicate Deploys(f: Facts, ls: seq<Label>) {
    After(f, ls).creations != []
  }

  lemma DeploysOnlyIf(f: Facts, ls: seq<Label>)
    requires Undrifted(ls) && Deploys(f, ls)
    ensures DeployableFacts(f) && (Unattended(ls) ==> Automatic(f))
  {
    hide Run;
    var g := After(f, ls);
    SteadyRun(f, Initial(f), ls);
    CreationIsAuthorized(f, ls, g.creations[0]);
    if Unattended(ls) {
      NobodyContinued(f, ls);
    }
  }

  lemma NobodyContinued(f: Facts, ls: seq<Label>)
    requires Unattended(ls)
    ensures After(f, ls).jobs == 0
  {
    hide Run, Inv, Grants;
    InitialInv(f);
    JobIffContinued(Initial(f), ls);
    forall i | 0 <= i < |ls|
      ensures !Grants(Initial(f), ls, i)
    {
      if Grants(Initial(f), ls, i) {
        OnlyApprovalsGrant(Initial(f), ls, i);
      }
    }
    AtMostOneJob(f, ls);
  }

  lemma InitialInv(f: Facts)
    ensures Inv(Initial(f))
  {
  }

  lemma AtMostOneJob(f: Facts, ls: seq<Label>)
    ensures After(f, ls).jobs <= 1
  {
    hide Run;
    Reachable(f, ls);
  }

  lemma OnlyApprovalsGrant(g: Gate, ls: seq<Label>, i: nat)
    requires i < |ls| && Grants(g, ls, i)
    ensures ls[i].ApproveAndEnqueue?
  {
  }

  // ------------------------------------------------------------ a run that deploys

  function Stages(path: seq<RunStatus>): seq<Label> {
    if path == [] then [] else [Advance(path[0])] + Stages(path[1..])
  }

  predicate IsPath(from: RunStatus, path: seq<RunStatus>)
    decreases |path|
  {
    path != [] ==> OtherStage(from, path[0]) && IsPath(path[0], path[1..])
  }

  lemma {:induction false} Head(g: Gate, l: Label, rest: seq<Label>)
    ensures Run(g, [l] + rest) == Run(Apply(g, l), rest)
  {
    hide Apply;
    assert ([l] + rest)[1..] == rest;
  }

  lemma {:induction false} StagesRun(g: Gate, path: seq<RunStatus>, rest: seq<Label>)
    requires IsPath(g.status, path)
    ensures Run(g, Stages(path) + rest) == Run(g.(status := if path == [] then g.status else path[|path| - 1]), rest)
    decreases |path|
  {
    hide OtherStage;
    if path == [] {
      assert Stages(path) + rest == rest;
    } else {
      var next := path[0];
      assert Stages(path) + rest == [Advance(next)] + (Stages(path[1..]) + rest);
      Head(g, Advance(next), Stages(path[1..]) + rest);
      StagesRun(g.(status := next), path[1..], rest);
    }
  }

  const ToAdmitted: seq<RunStatus> :=
    [SNAPSHOTTING, DIAGNOSING, GENERATING_CANDIDATES, RANKING, CALIBRATING, EVALUATING, ADMISSION, ADMITTED]

  /** Decide, ask, promote, approve, load and create, each at time 0. */
  function Deciding(f: Facts): seq<Label>
    requires Decidable(f)
  {
    var d := Decided(f);
    if Automatic(f) then [Decide, Promote, LoadBound(0, 0), Create(0)]
    else [Decide, Request(d.candidate, d.fingerprint, 0, 1), Promote, ApproveAndEnqueue(1, 0), LoadBound(0, 0),
          Create(0)]
  }

  lemma {:induction false} FourLabels(g: Gate, a: Label, b: Label, c: Label, d: Label)
    ensures Run(g, [a, b, c, d]) == Apply(Apply(Apply(Apply(g, a), b), c), d)
  {
    hide Apply;
    Head(g, a, [b, c, d]);
    Head(Apply(g, a), b, [c, d]);
    Head(Apply(Apply(g, a), b), c, [d]);
    OneLabel(Apply(Apply(Apply(g, a), b), c), d);
    assert [a] + [b, c, d] == [a, b, c, d] && [b] + [c, d] == [b, c, d] && [c] + [d] == [c, d];
  }

  lemma {:induction false} AutonomousDeploys(f: Facts, g: Gate)
    requires DeployableFacts(f) && Automatic(f) && g == Initial(f).(status := ADMITTED)
    ensures Run(g, Deciding(f)).creations != []
  {
    hide Run, Apply, Automatic, Decided;
    FourLabels(g, Decide, Promote, LoadBound(0, 0), Create(0));
    AutonomousPath(g, 0, 0);
  }

  lemma {:induction false} ApprovedDeploys(f: Facts, g: Gate)
    requires DeployableFacts(f) && !Automatic(f) && g == Initial(f).(status := ADMITTED)
    ensures Run(g, Deciding(f)).creations != []
  {
    hide Run, Apply, Automatic, Decided;
    var d := Decided(f);
    var asked := Request(d.candidate, d.fingerprint, 0, 1);
    var ls := [ApproveAndEnqueue(1, 0), LoadBound(0, 0), Create(0)];
    Head(g, Decide, [asked, Promote] + ls);
    var g1 := Apply(g, Decide);
    Head(g1, asked, [Promote] + ls);
    FourLabels(Apply(g1, asked), Promote, ApproveAndEnqueue(1, 0), LoadBound(0, 0), Create(0));
    assert [Promote] + ls == [Promote, ApproveAndEnqueue(1, 0), LoadBound(0, 0), Create(0)];
    assert [asked] + ([Promote] + ls) == [asked, Promote] + ls && Deciding(f) == [Decide] + ([asked, Promote] + ls);
    ApprovedPath(g, 0, 0, 1, 1, 0, 0);
  }

  lemma DeployableDeploys(f: Facts)
    requires DeployableFacts(f)
    ensures var ls := Stages(ToAdmitted) + Deciding(f);
            Undrifted(ls) && Deploys(f, ls) && (Automatic(f) ==> Unattended(ls))
  {
    hide Run, Automatic, Decided, Stages, IsPath, ToAdmitted;
    IsAdmittedPath();
    StagesRun(Initial(f), ToAdmitted, Deciding(f));
    StagesAdvance(ToAdmitted);
    var g := Initial(f).(status := ADMITTED);
    if Automatic(f) {
      AutonomousDeploys(f, g);
    } else {
      ApprovedDeploys(f, g);
    }
  }

  lemma IsAdmittedPath()
    ensures ToAdmitted != [] && ToAdmitted[|ToAdmitted| - 1] == ADMITTED && IsPath(CREATED, ToAdmitted)
  {
    assert IsPath(EVALUATING, ToAdmitted[6..]);
    assert IsPath(GENERATING_CANDIDATES, ToAdmitted[3..]);
  }

  lemma {:induction false} StagesAdvance(path: seq<RunStatus>)
    ensures forall l :: l in Stages(path) ==> l.Advance?
  {
    if path != [] {
      StagesAdvance(path[1..]);
    }
  }

  /** On facts that do not change, some run creates the index exactly when the facts can be decided,
      the action is CREATE_INDEX and its candidate is ADMITTED. */
  lemma DeploysIff(f: Facts)
    ensures (exists ls :: Undrifted(ls) && Deploys(f, ls)) <==> DeployableFacts(f)
  {
    hide Deploys, Automatic, Undrifted, Unattended;
    forall ls | Undrifted(ls) && Deploys(f, ls)
      ensures DeployableFacts(f)
    {
      DeploysOnlyIf(f, ls);
    }
    if DeployableFacts(f) {
      DeployableDeploys(f);
    }
  }

  /** And without any accepted approval, exactly when moreover the five conditions hold. */
  lemma DeploysUnattendedIff(f: Facts)
    ensures (exists ls :: Undrifted(ls) && Unattended(ls) && Deploys(f, ls)) <==> DeployableFacts(f) && Automatic(f)
  {
    hide Deploys, Automatic, Undrifted, Unattended;
    forall ls | Undrifted(ls) && Unattended(ls) && Deploys(f, ls)
      ensures DeployableFacts(f) && Automatic(f)
    {
      DeploysOnlyIf(f, ls);
    }
    if DeployableFacts(f) && Automatic(f) {
      DeployableDeploys(f);
    }
  }
}
