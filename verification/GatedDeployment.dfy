/** The gate and the deployment protocol of one run, side by side.  They share the run's status,
    and a deployment call goes on only when the gate admits its load. */
module GatedDeployment {
  import opened Catalog
  import opened Lifecycle
  import D = DeployProtocol
  import Runs = DeployRuns
  import Theorems = DeployTheorems
  import Calls = DeployCalls
  import Refinement = DeployRefinement
  import G = ProductionGate
  import T = ProductionGateTheorems

  /** The deployment's rows are those of an approved run; they are out of reach until the gate has
      brought the run to that status. */
  datatype System = System(gate: G.Gate, deploy: D.System)

  datatype Move =
    | AtGate(g: G.Label)
    /** `at` is the time a load's clock shows. */
    | AtTarget(d: D.Label, at: int)

  predicate Coupled(s: System) {
    s.deploy.shared.status == s.gate.status
  }

  predicate ByDeployment(next: RunStatus) {
    next == DEPLOYING || next == DEPLOYED
  }

  predicate At(s: D.System, w: WorkerId, worker: D.Worker) {
    w in s.workers && s.workers[w] == worker
  }

  /** Past the load of its deployment call. */
  predicate Loaded(s: D.System, w: WorkerId) {
    w in s.workers && s.workers[w].Deploy? && !s.workers[w].d.DLoad?
  }

  /** What the protocol does at a move: a refused load is an exception in the deployment. */
  function DeployLabels(s: System, m: Move): seq<D.Label> {
    match m
    case AtGate(g) => if Coupled(s) && g.Advance? && !ByDeployment(g.next) then [D.Advance(g.next)] else []
    case AtTarget(d, at) =>
      if !Coupled(s) || d.Advance? then []
      else if d.Step? && At(s.deploy, d.w, D.Deploy(D.DLoad)) && !G.LoadTx(s.gate, d.w, at).ok then [D.Abort(d.w)]
      else [d]
  }

  /** What the gate sees of a worker's step: its load and its creation. */
  function Effect(s: D.System, d: D.Label, at: int): seq<G.Label> {
    if !d.Step? || d.w !in s.workers then []
    else
      match s.workers[d.w]
      case Deploy(DLoad) => [G.LoadBound(d.w, at)]
      case Deploy(DCreate(_)) => [G.Create(d.w)]
      case _ => []
  }

  function StatusChange(current: RunStatus, next: RunStatus): seq<G.Label> {
    if next != current then [G.Advance(next)] else []
  }

  /** A load is over with its call. */
  function Closing(after: D.System, d: D.Label): seq<G.Label> {
    match d
    case Advance(_) => []
    case Outside(_) => []
    case _ => if Loaded(after, d.w) then [] else [G.Crash(d.w)]
  }

  function GateLabels(b: D.Binding, s: System, m: Move): seq<G.Label> {
    match m
    case AtGate(g) =>
      if g.LoadBound? || g.Create? || g.Crash? || (g.Advance? && ByDeployment(g.next)) then [] else [g]
    case AtTarget(d, at) =>
      if !Coupled(s) || d.Advance? then []
      else
        var after := D.Run(b, s.deploy, DeployLabels(s, m));
        Effect(s.deploy, d, at) + StatusChange(s.gate.status, after.shared.status) + Closing(after, d)
  }

  function Apply(b: D.Binding, s: System, m: Move): System {
    System(G.Run(s.gate, GateLabels(b, s, m)), D.Run(b, s.deploy, DeployLabels(s, m)))
  }

  function Run(b: D.Binding, s: System, ms: seq<Move>): System
    decreases |ms|
  {
    if ms == [] then s else Run(b, Apply(b, s, ms[0]), ms[1..])
  }

  function Initial(f: G.Facts, t0: Namespace): System {
    System(G.Initial(f), D.Initial(t0))
  }

  function After(b: D.Binding, f: G.Facts, t0: Namespace, ms: seq<Move>): System {
    Run(b, Initial(f, t0), ms)
  }

  /** Nobody outside the optimizer touches the collection. */
  predicate Quiet(ms: seq<Move>) {
    forall m :: m in ms ==> !(m.AtTarget? && m.d.Outside?)
  }

  // ------------------------------------------------------------ each part of a run is a run

  function AllGate(b: D.Binding, s: System, ms: seq<Move>): seq<G.Label>
    decreases |ms|
  {
    if ms == [] then [] else GateLabels(b, s, ms[0]) + AllGate(b, Apply(b, s, ms[0]), ms[1..])
  }

  function AllDeploy(b: D.Binding, s: System, ms: seq<Move>): seq<D.Label>
    decreases |ms|
  {
    if ms == [] then [] else DeployLabels(s, ms[0]) + AllDeploy(b, Apply(b, s, ms[0]), ms[1..])
  }

  lemma {:induction false} Projects(b: D.Binding, s: System, ms: seq<Move>)
    ensures Run(b, s, ms).gate == G.Run(s.gate, AllGate(b, s, ms))
    ensures Run(b, s, ms).deploy == D.Run(b, s.deploy, AllDeploy(b, s, ms))
    ensures Quiet(ms) ==> D.Quiet(AllDeploy(b, s, ms))
    decreases |ms|
  {
    hide GateLabels, DeployLabels;
    if ms != [] {
      var s' := Apply(b, s, ms[0]);
      Projects(b, s', ms[1..]);
      T.RunConcat(s.gate, GateLabels(b, s, ms[0]), AllGate(b, s', ms[1..]));
      Runs.RunConcat(b, s.deploy, DeployLabels(s, ms[0]), AllDeploy(b, s', ms[1..]));
      QuietLabels(s, ms[0]);
    }
  }

  lemma QuietLabels(s: System, m: Move)
    ensures !(m.AtTarget? && m.d.Outside?) ==> D.Quiet(DeployLabels(s, m))
  {
  }

  // ------------------------------------------------------------ the invariant

  /** The status a load found is the one the deployment goes by. */
  predicate Carries(pc: D.DeployPc, l: G.Load) {
    match pc
    case DAcquire(st) => l.runStatus == st
    case DReadBefore(st) => l.runStatus == st
    case DIntent(st, _) => l.runStatus == st
    case DBegin(st, _, _, _) => l.runStatus == st
    case _ => G.MayDeploy(l.runStatus)
  }

  ghost predicate LoadsMatch(g: G.Gate, s: D.System) {
    && (forall w :: w in g.loads <==> Loaded(s, w))
    && (forall w :: w in g.loads && w in s.workers && s.workers[w].Deploy? ==> Carries(s.workers[w].d, g.loads[w]))
  }

  ghost predicate Linked(t0: Namespace, s: System) {
    && (!Coupled(s) ==> s.deploy == D.Initial(t0))
    && (Coupled(s) ==> T.HasAuthority(s.gate))
    && |s.gate.creations| == s.deploy.shared.creates
    && LoadsMatch(s.gate, s.deploy)
  }

  ghost predicate Inv(b: D.Binding, t0: Namespace, s: System) {
    T.Inv(s.gate) && Runs.Inv(b, s.deploy) && Linked(t0, s)
  }

  // ------------------------------------------------------------ steps

  lemma StatusStep(b: D.Binding, sh: D.Shared, id: WorkerId, w: D.Worker)
    ensures var next := D.Exec(b, sh, id, w).sh.status;
            next != sh.status ==> ValidTransition(sh.status, next) && ByDeployment(next)
  {
    hide D.RecordedOutcome, D.SafeReason, View, HasExactIndex;
    match w
    case Deploy(pc) =>
      match pc {
        case DIntent(_, _) =>
        case DBegin(_, _, _, _) =>
        case DExecStart(_) =>
        case DMark(_, _) =>
        case DFinish =>
        case _ =>
      }
    case Rollback(pc) =>
    case Releasing(_) =>
    case Done(_) =>
  }

  lemma CreateStep(b: D.Binding, sh: D.Shared, id: WorkerId, w: D.Worker)
    ensures D.Exec(b, sh, id, w).sh.creates == sh.creates + (if w.Deploy? && w.d.DCreate? then 1 else 0)
  {
    hide D.RecordedOutcome, D.SafeReason, View, HasExactIndex, ValidTransition;
    match w
    case Deploy(pc) =>
      match pc {
        case DIntent(_, _) =>
        case DBegin(_, _, _, _) =>
        case DExecStart(_) =>
        case DMark(_, _) =>
        case DFinish =>
        case _ =>
      }
    case Rollback(pc) =>
    case Releasing(_) =>
    case Done(_) =>
  }

  /** A loaded deployment stays loaded with the same status until its call ends. */
  lemma CarriesStep(b: D.Binding, sh: D.Shared, id: WorkerId, w: D.Worker, l: G.Load)
    requires w.Deploy? && !w.d.DLoad? && Carries(w.d, l)
    ensures var w' := D.Exec(b, sh, id, w).w;
            w'.Deploy? ==> !w'.d.DLoad? && Carries(w'.d, l)
  {
    hide View, HasExactIndex, ValidTransition;
    match w.d
    case DBegin(_, _, _, _) =>
    case DExecStart(_) =>
    case _ =>
  }

  lemma NeverDeploys(b: D.Binding, sh: D.Shared, id: WorkerId, w: D.Worker)
    requires !w.Deploy?
    ensures !D.Exec(b, sh, id, w).w.Deploy?
  {
    hide D.SafeReason, View, HasExactIndex;
  }

  lemma {:induction false} OneLabel(b: D.Binding, s: D.System, d: D.Label)
    ensures D.Run(b, s, [d]) == D.Apply(b, s, d)
  {
    hide D.Apply;
    assert D.Run(b, D.Apply(b, s, d), []) == D.Apply(b, s, d);
  }

  /** A label of the gate alone. */
  lemma GateMove(b: D.Binding, t0: Namespace, s: System, g: G.Label)
    requires Inv(b, t0, s)
    ensures Linked(t0, Apply(b, s, AtGate(g))) && (Coupled(s) ==> Coupled(Apply(b, s, AtGate(g))))
  {
    hide T.Inv, Runs.Inv, LoadsMatch, G.Apply, T.HasAuthority;
    if GateLabels(b, s, AtGate(g)) == [] {
      assert Apply(b, s, AtGate(g)) == s;
    } else {
      var gate' := G.Apply(s.gate, g);
      T.OneLabel(s.gate, g);
      T.StepInv(s.gate, g);
      T.OtherLabels(s.gate, g);
      if gate'.status == APPROVED {
        T.ApprovedHasAuthority(gate');
      }
      ApprovedOrLaterHolds(b, s.deploy);
      if Coupled(s) && g.Advance? {
        OneLabel(b, s.deploy, D.Advance(g.next));
      }
      var s' := Apply(b, s, AtGate(g));
      assert s'.gate == gate' && s'.deploy.workers == s.deploy.workers;
      SameLoads(s, s');
    }
  }

  lemma ApprovedOrLaterHolds(b: D.Binding, s: D.System)
    requires Runs.Inv(b, s)
    ensures ApprovedOrLater(s.shared.status)
  {
  }

  lemma SameLoads(s: System, s': System)
    requires LoadsMatch(s.gate, s.deploy)
    requires s'.gate.loads == s.gate.loads && s'.deploy.workers == s.deploy.workers
    ensures LoadsMatch(s'.gate, s'.deploy)
  {
  }

  // ------------------------------------------------------------ a label of the deployment

  ghost predicate OnlyMoves(s: D.System, s': D.System, w: WorkerId) {
    forall v :: v != w ==>
      (v in s'.workers <==> v in s.workers) && (v in s.workers ==> s'.workers[v] == s.workers[v])
  }

  lemma LoadsFollow(g: G.Gate, s: D.System, g': G.Gate, s': D.System, w: WorkerId, l: G.Load)
    requires LoadsMatch(g, s) && OnlyMoves(s, s', w) && Loaded(s', w)
    requires g'.loads == g.loads[w := l] && Carries(s'.workers[w].d, l)
    ensures LoadsMatch(g', s')
  {
    hide Carries;
  }

  lemma LoadsDropped(g: G.Gate, s: D.System, g': G.Gate, s': D.System, w: WorkerId)
    requires LoadsMatch(g, s) && OnlyMoves(s, s', w) && !Loaded(s', w)
    requires g'.loads == g.loads - {w}
    ensures LoadsMatch(g', s')
  {
    hide Carries;
  }

  lemma {:induction false} StatusRun(g: G.Gate, next: RunStatus)
    requires next == g.status || (ValidTransition(g.status, next) && ApprovedOrLater(g.status))
    ensures G.Run(g, StatusChange(g.status, next)) == g.(status := next)
  {
    if next != g.status {
      T.OneLabel(g, G.Advance(next));
    }
  }

  lemma {:induction false} ClosingRun(g: G.Gate, after: D.System, d: D.Label)
    requires !d.Advance? && !d.Outside?
    ensures G.Run(g, Closing(after, d)) == if Loaded(after, d.w) then g else g.(loads := g.loads - {d.w})
  {
    if !Loaded(after, d.w) {
      T.OneLabel(g, G.Crash(d.w));
    }
  }

  /** The gate after a worker's label: what the load or creation left, then the status, then the end
      of the call. */
  lemma {:induction false} GateAfter(g: G.Gate, effect: seq<G.Label>, after: D.System, d: D.Label)
    requires !d.Advance? && !d.Outside? && G.Run(g, effect).status == g.status
    requires after.shared.status == g.status
             || (ValidTransition(g.status, after.shared.status) && ApprovedOrLater(g.status))
    ensures var e := G.Run(g, effect).(status := after.shared.status);
            G.Run(g, effect + StatusChange(g.status, after.shared.status) + Closing(after, d))
            == if Loaded(after, d.w) then e else e.(loads := e.loads - {d.w})
  {
    hide G.Run, Loaded, Closing, StatusChange;
    var change := StatusChange(g.status, after.shared.status);
    T.RunConcat(g, effect + change, Closing(after, d));
    T.RunConcat(g, effect, change);
    StatusRun(G.Run(g, effect), after.shared.status);
    ClosingRun(G.Run(g, effect).(status := after.shared.status), after, d);
  }

  lemma EffectRun(s: System, w: WorkerId, at: int)
    requires LoadsMatch(s.gate, s.deploy) && !D.Idle(s.deploy, w) && s.deploy.workers[w] != D.Deploy(D.DLoad)
    ensures var worker := s.deploy.workers[w];
            && (worker.Deploy? ==> w in s.gate.loads && Carries(worker.d, s.gate.loads[w]))
            && G.Run(s.gate, Effect(s.deploy, D.Step(w), at))
               == if worker.Deploy? && worker.d.DCreate?
                  then s.gate.(creations := s.gate.creations + [s.gate.loads[w]]) else s.gate
  {
    assert w in s.gate.loads <==> Loaded(s.deploy, w);
    if s.deploy.workers[w].Deploy? && s.deploy.workers[w].d.DCreate? {
      T.OneLabel(s.gate, G.Create(w));
    }
  }

  /** A worker's step other than the load of a deployment. */
  lemma WorkerStep(b: D.Binding, t0: Namespace, s: System, w: WorkerId, at: int)
    requires Inv(b, t0, s) && Coupled(s) && !D.Idle(s.deploy, w) && s.deploy.workers[w] != D.Deploy(D.DLoad)
    ensures Linked(t0, Apply(b, s, AtTarget(D.Step(w), at)))
            && (Coupled(s) ==> Coupled(Apply(b, s, AtTarget(D.Step(w), at))))
  {
    hide T.Inv, Runs.Inv, T.HasAuthority, Carries, D.Exec, ApprovedOrLater, ValidTransition, LoadsMatch;
    var d, sh, worker := D.Step(w), s.deploy.shared, s.deploy.workers[w];
    ApprovedOrLaterHolds(b, s.deploy);
    OneLabel(b, s.deploy, d);
    CreateStep(b, sh, w, worker);
    StatusStep(b, sh, w, worker);
    EffectRun(s, w, at);
    var after := D.Apply(b, s.deploy, d);
    GateAfter(s.gate, Effect(s.deploy, d, at), after, d);
    var s' := Apply(b, s, AtTarget(d, at));
    assert s'.deploy == after && OnlyMoves(s.deploy, after, w);
    if worker.Deploy? {
      CarriesStep(b, sh, w, worker, s.gate.loads[w]);
    } else {
      NeverDeploys(b, sh, w, worker);
    }
    if Loaded(after, w) {
      assert s.gate.loads[w := s.gate.loads[w]] == s.gate.loads;
      LoadsFollow(s.gate, s.deploy, s'.gate, after, w, s.gate.loads[w]);
    } else {
      LoadsDropped(s.gate, s.deploy, s'.gate, after, w);
    }
    T.SameAuthority(s.gate, s'.gate);
  }

  /** The load of a deployment: admitted by the gate, or the call fails. */
  lemma LoadStep(b: D.Binding, t0: Namespace, s: System, w: WorkerId, at: int)
    requires Inv(b, t0, s) && Coupled(s) && At(s.deploy, w, D.Deploy(D.DLoad))
    ensures Linked(t0, Apply(b, s, AtTarget(D.Step(w), at)))
            && (Coupled(s) ==> Coupled(Apply(b, s, AtTarget(D.Step(w), at))))
  {
    hide T.Inv, Runs.Inv, T.HasAuthority, Carries, ApprovedOrLater, ValidTransition, LoadsMatch, G.Admits;
    var d := D.Step(w);
    var move := AtTarget(d, at);
    var loaded := G.LoadTx(s.gate, w, at);
    T.OneLabel(s.gate, G.LoadBound(w, at));
    assert DeployLabels(s, move) == [if loaded.ok then d else D.Abort(w)];
    OneLabel(b, s.deploy, if loaded.ok then d else D.Abort(w));
    var after := D.Run(b, s.deploy, DeployLabels(s, move));
    assert OnlyMoves(s.deploy, after, w) && after.shared == s.deploy.shared;
    GateAfter(s.gate, Effect(s.deploy, d, at), after, d);
    var s' := Apply(b, s, move);
    if loaded.ok {
      FreshLoad(s.gate.status, loaded.g.loads[w]);
      LoadsFollow(s.gate, s.deploy, s'.gate, after, w, loaded.g.loads[w]);
    } else {
      LoadsDropped(s.gate, s.deploy, s'.gate, after, w);
    }
    T.SameAuthority(s.gate, s'.gate);
  }

  lemma FreshLoad(status: RunStatus, l: G.Load)
    requires l.runStatus == status
    ensures Carries(D.DAcquire(status), l)
  {
  }

  lemma StillLoaded(s: System, after: D.System, d: D.Label, gate': G.Gate)
    requires LoadsMatch(s.gate, s.deploy) && (d.StartDeploy? || d.StartRollback? || d.Step?)
    requires after == s.deploy && gate'.loads == s.gate.loads
    ensures LoadsMatch(gate', after)
  {
  }

  /** Calls that begin, fail or die. */
  lemma CallMove(b: D.Binding, t0: Namespace, s: System, d: D.Label, at: int)
    requires Inv(b, t0, s) && Coupled(s)
    requires d.StartDeploy? || d.StartRollback? || d.Abort? || d.Crash? || (d.Step? && D.Idle(s.deploy, d.w))
    ensures Linked(t0, Apply(b, s, AtTarget(d, at))) && (Coupled(s) ==> Coupled(Apply(b, s, AtTarget(d, at))))
  {
    hide T.Inv, Runs.Inv, T.HasAuthority, Carries, ApprovedOrLater, ValidTransition, LoadsMatch;
    OneLabel(b, s.deploy, d);
    var after := D.Apply(b, s.deploy, d);
    assert OnlyMoves(s.deploy, after, d.w);
    GateAfter(s.gate, [], after, d);
    var s' := Apply(b, s, AtTarget(d, at));
    assert [] + StatusChange(s.gate.status, after.shared.status) == StatusChange(s.gate.status, after.shared.status);
    if Loaded(after, d.w) {
      StillLoaded(s, after, d, s'.gate);
    } else {
      LoadsDropped(s.gate, s.deploy, s'.gate, after, d.w);
    }
    T.SameAuthority(s.gate, s'.gate);
  }

  /** Once the gate has released the run, the two parts stay in step. */
  lemma ApplyKeeps(b: D.Binding, t0: Namespace, s: System, m: Move)
    requires Inv(b, t0, s)
    ensures Inv(b, t0, Apply(b, s, m)) && (Coupled(s) ==> Coupled(Apply(b, s, m)))
  {
    hide T.Inv, Runs.Inv, Linked, GateLabels, DeployLabels;
    T.RunInv(s.gate, GateLabels(b, s, m));
    Runs.RunKeeps(b, s.deploy, DeployLabels(s, m));
    match m
    case AtGate(g) => GateMove(b, t0, s, g);
    case AtTarget(d, at) => TargetMove(b, t0, s, d, at);
  }

  lemma TargetMove(b: D.Binding, t0: Namespace, s: System, d: D.Label, at: int)
    requires Inv(b, t0, s)
    ensures Linked(t0, Apply(b, s, AtTarget(d, at))) && (Coupled(s) ==> Coupled(Apply(b, s, AtTarget(d, at))))
  {
    hide T.Inv, Runs.Inv, LoadsMatch, T.HasAuthority, D.Exec;
    if !Coupled(s) || d.Advance? {
      assert Apply(b, s, AtTarget(d, at)) == s;
    } else if d.Outside? {
      OneLabel(b, s.deploy, d);
      var s' := Apply(b, s, AtTarget(d, at));
      assert s'.gate == s.gate;
      SameLoads(s, s');
    } else if d.Step? && !D.Idle(s.deploy, d.w) {
      if s.deploy.workers[d.w] == D.Deploy(D.DLoad) {
        LoadStep(b, t0, s, d.w, at);
      } else {
        WorkerStep(b, t0, s, d.w, at);
      }
    } else {
      CallMove(b, t0, s, d, at);
    }
  }

  lemma {:induction false} RunKeeps(b: D.Binding, t0: Namespace, s: System, ms: seq<Move>)
    requires Inv(b, t0, s)
    ensures Inv(b, t0, Run(b, s, ms))
    decreases |ms|
  {
    hide Inv, Apply;
    if ms != [] {
      ApplyKeeps(b, t0, s, ms[0]);
      RunKeeps(b, t0, Apply(b, s, ms[0]), ms[1..]);
    }
  }

  lemma Reachable(b: D.Binding, f: G.Facts, t0: Namespace, ms: seq<Move>)
    ensures Inv(b, t0, After(b, f, t0, ms))
  {
    hide Run, T.Inv, Runs.Inv;
    GateStarts(f);
    DeploymentStarts(b, t0);
    RunKeeps(b, t0, Initial(f, t0), ms);
  }

  lemma GateStarts(f: G.Facts)
    ensures T.Inv(G.Initial(f))
  {
  }

  lemma DeploymentStarts(b: D.Binding, t0: Namespace)
    ensures Runs.Inv(b, D.Initial(t0))
  {
  }

  // ------------------------------------------------------------ what the two guarantee together

  /** Every index creation of the protocol is one the gate authorized, and without outside writers
      there is at most one. */
  lemma EveryCreationIsAuthorized(b: D.Binding, f: G.Facts, t0: Namespace, ms: seq<Move>)
    ensures var s := After(b, f, t0, ms);
            && |s.gate.creations| == s.deploy.shared.creates
            && (forall l :: l in s.gate.creations ==> T.Authorized(s.gate, l))
            && (Quiet(ms) ==> s.deploy.shared.creates <= 1)
  {
    hide Run, T.Authorized, T.Inv, Runs.Inv, AllGate, AllDeploy, G.Run, D.Run;
    Reachable(b, f, t0, ms);
    var s := After(b, f, t0, ms);
    var start := Initial(f, t0);
    Projects(b, start, ms);
    forall l | l in s.gate.creations
      ensures T.Authorized(s.gate, l)
    {
      T.CreationIsAuthorized(f, AllGate(b, start, ms), l);
    }
    if Quiet(ms) {
      Theorems.AtMostOnce(b, t0, AllDeploy(b, start, ms));
    }
  }

  /** Until the decision is autonomous or an approval is continued, nothing of a deployment exists:
      no row, no call and no change of the target.  A rejected run stays so. */
  lemma NothingWithoutAuthority(b: D.Binding, f: G.Facts, t0: Namespace, ms: seq<Move>)
    ensures var s := After(b, f, t0, ms);
            && (!T.HasAuthority(s.gate) ==> s.deploy == D.Initial(t0))
            && (s.gate.request.Some? && s.gate.request.value.status.APPROVAL_REFUSED? ==> s.deploy == D.Initial(t0))
  {
    hide Run, Runs.Inv, T.DecisionSound, T.HistorySound, LoadsMatch;
    Reachable(b, f, t0, ms);
  }

  /** A creation is issued by the holder of the target lock, on the load this very worker was
      admitted with. */
  lemma CreationFollowsItsLoad(b: D.Binding, f: G.Facts, t0: Namespace, ms: seq<Move>, m: Move)
    requires Apply(b, After(b, f, t0, ms), m).deploy.shared.creates != After(b, f, t0, ms).deploy.shared.creates
    ensures var s, s' := After(b, f, t0, ms), Apply(b, After(b, f, t0, ms), m);
            && m.AtTarget? && m.d.Step? && s.deploy.shared.lock == Some(m.d.w)
            && m.d.w in s.gate.loads && G.Admits(s.gate.loads[m.d.w])
            && s'.gate.creations == s.gate.creations + [s.gate.loads[m.d.w]]
  {
    hide Run, Apply;
    Reachable(b, f, t0, ms);
    var s := After(b, f, t0, ms);
    hide T.Inv, Runs.Inv, Linked;
    OnlyStepsCreate(b, s, m);
    CreatingStep(b, t0, s, m.d.w, m.at);
  }

  lemma OnlyStepsCreate(b: D.Binding, s: System, m: Move)
    requires Apply(b, s, m).deploy.shared.creates != s.deploy.shared.creates
    ensures m.AtTarget? && m.d.Step? && Coupled(s) && m.d.w in s.deploy.workers
    ensures s.deploy.workers[m.d.w].Deploy? && s.deploy.workers[m.d.w].d.DCreate?
  {
    hide GateLabels, D.Exec, G.LoadTx;
    var ls := DeployLabels(s, m);
    if ls != [] {
      OneLabel(b, s.deploy, ls[0]);
      if ls[0].Step? && !D.Idle(s.deploy, ls[0].w) {
        CreateStep(b, s.deploy.shared, ls[0].w, s.deploy.workers[ls[0].w]);
      }
    }
  }

  lemma LoadAdmitted(g: G.Gate, w: WorkerId)
    requires T.Inv(g) && w in g.loads
    ensures G.Admits(g.loads[w])
  {
    hide G.Admits, T.DecisionSound, T.StatusSound, T.VerdictSound;
    assert T.LoadSound(g, g.loads[w]);
  }

  lemma HoldsLock(b: D.Binding, s: D.System, w: WorkerId)
    requires Runs.Inv(b, s) && w in s.workers && D.Locked(s.workers[w])
    ensures s.shared.lock == Some(w)
  {
  }

  lemma CreatingStep(b: D.Binding, t0: Namespace, s: System, w: WorkerId, at: int)
    requires Inv(b, t0, s) && Coupled(s) && w in s.deploy.workers
    requires s.deploy.workers[w].Deploy? && s.deploy.workers[w].d.DCreate?
    ensures s.deploy.shared.lock == Some(w) && w in s.gate.loads && G.Admits(s.gate.loads[w])
    ensures Apply(b, s, AtTarget(D.Step(w), at)).gate.creations == s.gate.creations + [s.gate.loads[w]]
  {
    hide T.Inv, T.HasAuthority, Runs.Inv, Carries, ValidTransition, G.Admits, Closing, StatusChange, D.Exec;
    HoldsLock(b, s.deploy, w);
    ApprovedOrLaterHolds(b, s.deploy);
    var d, sh, worker := D.Step(w), s.deploy.shared, s.deploy.workers[w];
    OneLabel(b, s.deploy, d);
    StatusStep(b, sh, w, worker);
    EffectRun(s, w, at);
    LoadAdmitted(s.gate, w);
    GateAfter(s.gate, Effect(s.deploy, d, at), D.Apply(b, s.deploy, d), d);
  }

  // ------------------------------------------------------------ one call

  /** A whole deployment call whose load shows the time `at`. */
  function Call(id: WorkerId, at: int, n: nat): seq<Move> {
    if n == 0 then [] else [AtTarget(D.Step(id), at)] + Call(id, at, n - 1)
  }

  /** The steps of a loaded deployment are the protocol's. */
  lemma {:induction false} LoadedCall(b: D.Binding, t0: Namespace, s: System, id: WorkerId, at: int, n: nat)
    requires Inv(b, t0, s) && Coupled(s) && !At(s.deploy, id, D.Deploy(D.DLoad))
    ensures Run(b, s, Call(id, at, n)).deploy == D.Run(b, s.deploy, Calls.Steps(id, n))
    decreases n
  {
    hide Inv, D.Exec, GateLabels;
    if n > 0 {
      var m := AtTarget(D.Step(id), at);
      var s' := Apply(b, s, m);
      assert Call(id, at, n)[1..] == Call(id, at, n - 1) && Calls.Steps(id, n)[1..] == Calls.Steps(id, n - 1);
      OneLabel(b, s.deploy, D.Step(id));
      ApplyKeeps(b, t0, s, m);
      NeverLoadsAgain(b, s.deploy, id);
      LoadedCall(b, t0, s', id, at, n - 1);
    }
  }

  lemma NeverLoadsAgain(b: D.Binding, s: D.System, id: WorkerId)
    requires !At(s, id, D.Deploy(D.DLoad))
    ensures !At(D.Apply(b, s, D.Step(id)), id, D.Deploy(D.DLoad))
  {
  }

  lemma CallBegins(b: D.Binding, t0: Namespace, s: System, id: WorkerId, at: int)
    requires Inv(b, t0, s) && Coupled(s) && D.Idle(s.deploy, id)
    ensures Apply(b, s, AtTarget(D.StartDeploy(id), at))
            == System(s.gate, s.deploy.(workers := s.deploy.workers[id := D.Deploy(D.DLoad)]))
  {
    hide T.Inv, Runs.Inv, T.HasAuthority;
    assert id !in s.gate.loads by {
      hide Carries;
      assert id in s.gate.loads <==> Loaded(s.deploy, id);
    }
    var d := D.StartDeploy(id);
    OneLabel(b, s.deploy, d);
    var after := D.Apply(b, s.deploy, d);
    GateAfter(s.gate, [], after, d);
    assert [] + StatusChange(s.gate.status, after.shared.status) == StatusChange(s.gate.status, after.shared.status);
    assert s.gate.loads - {id} == s.gate.loads;
  }

  lemma CallLoads(b: D.Binding, s: System, id: WorkerId, at: int)
    requires Coupled(s) && At(s.deploy, id, D.Deploy(D.DLoad))
    ensures Apply(b, s, AtTarget(D.Step(id), at)).deploy
            == if G.LoadTx(s.gate, id, at).ok then D.Apply(b, s.deploy, D.Step(id))
               else s.deploy.(workers := s.deploy.workers[id := D.Done(D.Failed)])
  {
    hide GateLabels, D.Exec, G.LoadTx;
    OneLabel(b, s.deploy, D.Step(id));
    OneLabel(b, s.deploy, D.Abort(id));
  }

  /** A deployment call of a released run is the protocol's uninterrupted call when the gate admits
      its load, and changes nothing when it does not. */
  lemma {:induction false} GatedCall(b: D.Binding, f: G.Facts, t0: Namespace, ms: seq<Move>, id: WorkerId, at: int)
    requires var s := After(b, f, t0, ms); Coupled(s) && D.Idle(s.deploy, id)
    ensures var s := After(b, f, t0, ms);
            var end := Run(b, s, [AtTarget(D.StartDeploy(id), at)] + Call(id, at, Calls.CALL_STEPS)).deploy;
            var solo := D.Solo(b, s.deploy.shared, id, D.Deploy(D.DLoad));
            end == if G.LoadTx(s.gate, id, at).ok then D.System(solo.sh, s.deploy.workers[id := solo.w])
                   else s.deploy.(workers := s.deploy.workers[id := D.Done(D.Failed)])
  {
    hide T.Inv, Runs.Inv, Linked, Apply, D.Solo, D.Exec, G.LoadTx;
    Reachable(b, f, t0, ms);
    var s := After(b, f, t0, ms);
    var n := Calls.CALL_STEPS - 1;
    var start, step := AtTarget(D.StartDeploy(id), at), AtTarget(D.Step(id), at);
    CallBegins(b, t0, s, id, at);
    var s1 := Apply(b, s, start);
    ApplyKeeps(b, t0, s, start);
    CallLoads(b, s1, id, at);
    var s2 := Apply(b, s1, step);
    ApplyKeeps(b, t0, s1, step);
    AfterLoad(b, s1.deploy, id);
    LoadedCall(b, t0, s2, id, at, n);
    CallUnfolds(b, s, id, at);
    if G.LoadTx(s.gate, id, at).ok {
      Calls.DeployCall(b, s.deploy, id);
      DeployingUnfolds(b, s.deploy, id);
    } else {
      Calls.DoneSteps(b, s2.deploy, id, n);
      assert s1.deploy.workers[id := D.Done(D.Failed)] == s.deploy.workers[id := D.Done(D.Failed)];
    }
  }

  /** With the lock free and nobody outside writing, a deployment call of a released run succeeds
      exactly when the gate admits its load, the run may be deployed and nothing was rolled back; the
      index is then in place, created at most once. */
  lemma {:induction false} GatedCallDeploysIff(b: D.Binding, f: G.Facts, t0: Namespace, ms: seq<Move>, id: WorkerId,
                                               at: int)
    requires var s := After(b, f, t0, ms);
             Quiet(ms) && Coupled(s) && D.Idle(s.deploy, id) && s.deploy.shared.lock.None?
    ensures var s := After(b, f, t0, ms);
            var end := Run(b, s, [AtTarget(D.StartDeploy(id), at)] + Call(id, at, Calls.CALL_STEPS)).deploy;
            && id in end.workers
            && (end.workers[id] == D.Done(D.Succeeded) <==>
                  && G.LoadTx(s.gate, id, at).ok
                  && Refinement.Deployable(s.gate.status) && s.deploy.shared.drops == 0)
            && (end.workers[id] == D.Done(D.Succeeded) ==> Refinement.Deployed(b, t0, end.shared))
  {
    hide Run, D.Run, D.Solo, G.LoadTx, Refinement.Deployed, AllDeploy;
    var s, start := After(b, f, t0, ms), Initial(f, t0);
    GatedCall(b, f, t0, ms, id, at);
    Projects(b, start, ms);
    Refinement.CrashRefinement(b, t0, AllDeploy(b, start, ms), id);
    assert Refinement.Survivors(s.deploy.shared) == s.deploy.shared;
  }

  lemma AfterLoad(b: D.Binding, s: D.System, id: WorkerId)
    requires At(s, id, D.Deploy(D.DLoad))
    ensures !At(D.Apply(b, s, D.Step(id)), id, D.Deploy(D.DLoad))
  {
  }

  lemma {:induction false} CallUnfolds(b: D.Binding, s: System, id: WorkerId, at: int)
    ensures var start, step := AtTarget(D.StartDeploy(id), at), AtTarget(D.Step(id), at);
            Run(b, s, [start] + Call(id, at, Calls.CALL_STEPS))
            == Run(b, Apply(b, Apply(b, s, start), step), Call(id, at, Calls.CALL_STEPS - 1))
  {
    hide Apply;
    var start := AtTarget(D.StartDeploy(id), at);
    var call := Call(id, at, Calls.CALL_STEPS);
    assert ([start] + call)[1..] == call && call[1..] == Call(id, at, Calls.CALL_STEPS - 1);
  }

  lemma {:induction false} DeployingUnfolds(b: D.Binding, s: D.System, id: WorkerId)
    ensures D.Run(b, s, Calls.Deploying(id))
            == D.Run(b, D.Apply(b, D.Apply(b, s, D.StartDeploy(id)), D.Step(id)), Calls.Steps(id, Calls.CALL_STEPS - 1))
  {
    hide D.Apply;
    var steps := Calls.Steps(id, Calls.CALL_STEPS);
    assert ([D.StartDeploy(id)] + steps)[1..] == steps && steps[1..] == Calls.Steps(id, Calls.CALL_STEPS - 1);
  }
}
