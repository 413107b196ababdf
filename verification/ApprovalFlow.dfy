/** The in-memory approval flow: approvals bound to one action, target and evidence hash.

    The dictionary is kept in insertion order.  Every reading of the clock is one step of it:
    `clock(k)` is what the k-th reading shows, and readings never go back. */
module ApprovalFlow {
  import opened Catalog

  datatype Status = PENDING | APPROVED | STALE | EXPIRED

  datatype Approval = Approval(
    id: string, action: string, target: string, evidence: string, requestedAt: int, expires: int,
    status: Status, approvedBy: Option<string>, approvedAt: Option<int>)

  type Clock = nat -> int

  datatype Flow = Flow(approvals: seq<Approval>, ticks: nat)

  ghost predicate Monotone(clock: Clock) {
    forall i: nat, j: nat :: i <= j ==> clock(i) <= clock(j)
  }

  /** Where the approval with this identifier is, or the number of approvals. */
  function Find(approvals: seq<Approval>, id: string): (i: nat)
    ensures i <= |approvals|
    ensures i < |approvals| ==> approvals[i].id == id
    ensures forall j :: 0 <= j < i ==> approvals[j].id != id
  {
    if approvals == [] || approvals[0].id == id then 0 else Find(approvals[1..], id) + 1
  }

  // ------------------------------------------------------------ the three calls

  function Requested(f: Flow, id: string, action: string, evidence: string, target: string, ttl: int,
                     clock: Clock): Flow {
    var now := clock(f.ticks);
    Flow(f.approvals + [Approval(id, action, target, evidence, now, now + ttl, PENDING, None, None)], f.ticks + 1)
  }

  datatype Outcome = Outcome(f: Flow, returned: Option<Approval>)

  function Approved(f: Flow, id: string, approver: string, clock: Clock): Outcome {
    var i := Find(f.approvals, id);
    if i == |f.approvals| then Outcome(f, None)
    else
      var a := f.approvals[i];
      if a.expires <= clock(f.ticks) then Outcome(Flow(f.approvals[i := a.(status := EXPIRED)], f.ticks + 1), None)
      else if !a.status.PENDING? then Outcome(f.(ticks := f.ticks + 1), None)
      else
        var b := a.(status := Status.APPROVED, approvedBy := Some(approver), approvedAt := Some(clock(f.ticks + 1)));
        Outcome(Flow(f.approvals[i := b], f.ticks + 2), Some(b))
  }

  /** One approval in the invalidating pass: only an approved one of this action reads the clock. */
  function Swept(a: Approval, ticks: nat, action: string, evidence: string, clock: Clock): Approval {
    if a.action != action || !a.status.APPROVED? then a
    else if a.expires <= clock(ticks) then a.(status := EXPIRED)
    else if a.evidence != evidence then a.(status := STALE)
    else a
  }

  function Readings(a: Approval, action: string): nat {
    if a.action == action && a.status.APPROVED? then 1 else 0
  }

  function Sweep(f: Flow, action: string, evidence: string, clock: Clock): (g: Flow)
    ensures |g.approvals| == |f.approvals|
    decreases |f.approvals|
  {
    if f.approvals == [] then f
    else
      var n := |f.approvals| - 1;
      var before := Sweep(Flow(f.approvals[..n], f.ticks), action, evidence, clock);
      var a := f.approvals[n];
      Flow(before.approvals + [Swept(a, before.ticks, action, evidence, clock)], before.ticks + Readings(a, action))
  }

  lemma {:induction false} NothingSwept(ticks: nat, action: string, evidence: string, clock: Clock)
    ensures Sweep(Flow([], ticks), action, evidence, clock) == Flow([], ticks)
  {
  }

  lemma {:induction false} SweepNext(f: Flow, i: nat, action: string, evidence: string, clock: Clock)
    requires i < |f.approvals|
    ensures var before := Sweep(Flow(f.approvals[..i], f.ticks), action, evidence, clock);
            var a := f.approvals[i];
            Sweep(Flow(f.approvals[..i + 1], f.ticks), action, evidence, clock)
            == Flow(before.approvals + [Swept(a, before.ticks, action, evidence, clock)],
                    before.ticks + Readings(a, action))
  {
    assert f.approvals[..i + 1][..i] == f.approvals[..i];
  }

  predicate Matches(a: Approval, action: string, evidence: string, target: string) {
    a.action == action && a.status.APPROVED? && a.evidence == evidence && a.target == target
  }

  function FirstMatch(approvals: seq<Approval>, action: string, evidence: string, target: string): Option<Approval> {
    if approvals == [] then None
    else if Matches(approvals[0], action, evidence, target) then Some(approvals[0])
    else FirstMatch(approvals[1..], action, evidence, target)
  }

  function Required(f: Flow, action: string, evidence: string, target: string, clock: Clock): Outcome {
    var g := Sweep(f, action, evidence, clock);
    Outcome(g, FirstMatch(g.approvals, action, evidence, target))
  }

  // ------------------------------------------------------------ one query

  /** How often the clock is read for the approvals before position `i`. */
  function Earlier(approvals: seq<Approval>, i: nat, action: string): nat
    requires i <= |approvals|
  {
    if i == 0 then 0 else Earlier(approvals, i - 1, action) + Readings(approvals[i - 1], action)
  }

  lemma {:induction false} EarlierOfPrefix(approvals: seq<Approval>, n: nat, i: nat, action: string)
    requires i <= n <= |approvals|
    ensures Earlier(approvals[..n], i, action) == Earlier(approvals, i, action)
  {
    if i > 0 {
      EarlierOfPrefix(approvals, n, i - 1, action);
    }
  }

  lemma {:induction false} SweepTicks(f: Flow, action: string, evidence: string, clock: Clock)
    ensures Sweep(f, action, evidence, clock).ticks == f.ticks + Earlier(f.approvals, |f.approvals|, action)
    decreases |f.approvals|
  {
    hide Swept, Readings;
    if f.approvals != [] {
      var n := |f.approvals| - 1;
      SweepTicks(Flow(f.approvals[..n], f.ticks), action, evidence, clock);
      EarlierOfPrefix(f.approvals, n, n, action);
    }
  }

  /** After the pass an approval is what its own reading of the clock makes of it. */
  lemma {:induction false} SweepAt(f: Flow, i: nat, action: string, evidence: string, clock: Clock)
    requires i < |f.approvals|
    ensures Sweep(f, action, evidence, clock).approvals[i]
            == Swept(f.approvals[i], f.ticks + Earlier(f.approvals, i, action), action, evidence, clock)
    decreases |f.approvals|
  {
    hide Swept, Readings;
    var n := |f.approvals| - 1;
    var init := Flow(f.approvals[..n], f.ticks);
    EarlierOfPrefix(f.approvals, n, i, action);
    if i == n {
      SweepTicks(init, action, evidence, clock);
    } else {
      SweepAt(init, i, action, evidence, clock);
    }
  }

  /** It matches, and it was unexpired at the reading of the clock made for it. */
  ghost predicate Live(f: Flow, i: nat, action: string, evidence: string, target: string, clock: Clock)
    requires i < |f.approvals|
  {
    && Matches(f.approvals[i], action, evidence, target)
    && f.approvals[i].expires > clock(f.ticks + Earlier(f.approvals, i, action))
  }

  lemma {:induction false} SweptMatches(f: Flow, i: nat, action: string, evidence: string, target: string, clock: Clock)
    requires i < |f.approvals|
    ensures var a := Sweep(f, action, evidence, clock).approvals[i];
            && (Matches(a, action, evidence, target) <==> Live(f, i, action, evidence, target, clock))
            && (Matches(a, action, evidence, target) ==> a == f.approvals[i])
  {
    hide Sweep, Earlier;
    SweepAt(f, i, action, evidence, clock);
  }

  /** A query returns an approval exactly when one matches and is unexpired at its own reading, and
      then it returns the first such approval, as it is on record. */
  lemma RequiredExactly(f: Flow, action: string, evidence: string, target: string, clock: Clock)
    ensures var r := Required(f, action, evidence, target, clock).returned;
            && (r.Some? <==> exists i :: 0 <= i < |f.approvals| && Live(f, i, action, evidence, target, clock))
            && (r.Some? ==>
                  exists i :: 0 <= i < |f.approvals| && Live(f, i, action, evidence, target, clock)
                    && r.value == f.approvals[i]
                    && forall j :: 0 <= j < i ==> !Live(f, j, action, evidence, target, clock))
  {
    hide FirstMatch, Sweep, Live, Matches;
    var g := Sweep(f, action, evidence, clock);
    forall i | 0 <= i < |f.approvals|
      ensures Matches(g.approvals[i], action, evidence, target) <==> Live(f, i, action, evidence, target, clock)
      ensures Matches(g.approvals[i], action, evidence, target) ==> g.approvals[i] == f.approvals[i]
    {
      SweptMatches(f, i, action, evidence, target, clock);
    }
    FirstMatchAt(g.approvals, action, evidence, target);
  }

  /** The first match is a match with none before it. */
  lemma {:induction false} FirstMatchAt(approvals: seq<Approval>, action: string, evidence: string, target: string)
    ensures var r := FirstMatch(approvals, action, evidence, target);
            && (r.None? ==> forall i :: 0 <= i < |approvals| ==> !Matches(approvals[i], action, evidence, target))
            && (r.Some? ==>
                  exists i :: 0 <= i < |approvals| && approvals[i] == r.value
                    && Matches(approvals[i], action, evidence, target)
                    && forall j :: 0 <= j < i ==> !Matches(approvals[j], action, evidence, target))
  {
    hide Matches;
    if approvals != [] && !Matches(approvals[0], action, evidence, target) {
      var rest := approvals[1..];
      FirstMatchAt(rest, action, evidence, target);
      var r := FirstMatch(rest, action, evidence, target);
      assert forall j :: 0 < j < |approvals| ==> approvals[j] == rest[j - 1];
      if r.Some? {
        var i :| 0 <= i < |rest| && rest[i] == r.value && Matches(rest[i], action, evidence, target)
                 && forall j :: 0 <= j < i ==> !Matches(rest[j], action, evidence, target);
        assert approvals[i + 1] == r.value;
      }
    }
  }

  /** With a clock that never goes back, what is returned was unexpired when the call began. */
  lemma ReturnedIsCurrent(f: Flow, action: string, evidence: string, target: string, clock: Clock)
    requires Monotone(clock) && Required(f, action, evidence, target, clock).returned.Some?
    ensures Required(f, action, evidence, target, clock).returned.value.expires > clock(f.ticks)
  {
    hide FirstMatch, Sweep, Matches, Earlier, Required;
    RequiredExactly(f, action, evidence, target, clock);
  }

  // ------------------------------------------------------------ every call, exactly

  /** Everything but one approval is as it was. */
  ghost predicate OnlyChanges(f: Flow, g: Flow, i: nat) {
    |g.approvals| == |f.approvals| && forall j :: 0 <= j < |f.approvals| && j != i ==> g.approvals[j] == f.approvals[j]
  }

  /** A request adds one pending approval, bound to what it names, that lives `ttl` from the one reading of
      the clock. */
  lemma RequestExactly(f: Flow, id: string, action: string, evidence: string, target: string, ttl: int, clock: Clock)
    ensures var g := Requested(f, id, action, evidence, target, ttl, clock);
            && |g.approvals| == |f.approvals| + 1 && g.approvals[..|f.approvals|] == f.approvals
            && g.ticks == f.ticks + 1
            && var a := g.approvals[|f.approvals|];
               && a.id == id && a.action == action && a.evidence == evidence && a.target == target
               && a.requestedAt == clock(f.ticks) && a.expires - a.requestedAt == ttl
               && a.status == PENDING && a.approvedBy == None && a.approvedAt == None
  {
  }

  /** Approving an unknown identifier is refused.  The first approval with it expires if its time is over at
      the first reading, is left alone if it is not pending, and is otherwise approved by this person at the
      second reading. */
  lemma ApproveExactly(f: Flow, id: string, approver: string, clock: Clock)
    ensures var r := Approved(f, id, approver, clock);
            && ((forall j :: 0 <= j < |f.approvals| ==> f.approvals[j].id != id) ==> r == Outcome(f, None))
            && (forall i :: 0 <= i < |f.approvals| && f.approvals[i].id == id
                            && (forall j :: 0 <= j < i ==> f.approvals[j].id != id) ==>
                  var a := f.approvals[i];
                  && OnlyChanges(f, r.f, i)
                  && if clock(f.ticks) >= a.expires then
                       r.returned == None && r.f.ticks == f.ticks + 1 && r.f.approvals[i] == a.(status := EXPIRED)
                     else if a.status != PENDING then r.returned == None && r.f == f.(ticks := f.ticks + 1)
                     else
                       && r.f.ticks == f.ticks + 2 && r.returned == Some(r.f.approvals[i])
                       && r.f.approvals[i] == Approval(a.id, a.action, a.target, a.evidence, a.requestedAt, a.expires,
                                                       Status.APPROVED, Some(approver), Some(clock(f.ticks + 1))))
  {
  }

  /** The approvals of this action that are approved, before a position: each reads the clock once. */
  function ApprovedBefore(approvals: seq<Approval>, i: nat, action: string): set<int>
    requires i <= |approvals|
  {
    set j | 0 <= j < i && approvals[j].action == action && approvals[j].status == Status.APPROVED
  }

  lemma {:induction false} EarlierCounts(approvals: seq<Approval>, i: nat, action: string)
    requires i <= |approvals|
    ensures Earlier(approvals, i, action) == |ApprovedBefore(approvals, i, action)|
  {
    if i > 0 {
      EarlierCounts(approvals, i - 1, action);
      var counts := approvals[i - 1].action == action && approvals[i - 1].status == Status.APPROVED;
      assert ApprovedBefore(approvals, i, action)
             == ApprovedBefore(approvals, i - 1, action) + (if counts then {i - 1} else {});
    }
  }

  /** A query expires or stales every approved approval of its action at the reading made for it, and leaves
      every other one alone. */
  lemma QueryExactly(f: Flow, i: nat, action: string, evidence: string, target: string, clock: Clock)
    requires i < |f.approvals|
    ensures var a, g := f.approvals[i], Required(f, action, evidence, target, clock).f;
            var now := clock(f.ticks + |ApprovedBefore(f.approvals, i, action)|);
            && |g.approvals| == |f.approvals|
            && g.approvals[i] == (if a.action != action || a.status != Status.APPROVED then a
                                  else if now >= a.expires then a.(status := EXPIRED)
                                  else if a.evidence != evidence then a.(status := STALE)
                                  else a)
            && g.ticks == f.ticks + |ApprovedBefore(f.approvals, |f.approvals|, action)|
  {
    hide Sweep, Earlier, ApprovedBefore;
    SweepAt(f, i, action, evidence, clock);
    SweepTicks(f, action, evidence, clock);
    EarlierCounts(f.approvals, i, action);
    EarlierCounts(f.approvals, |f.approvals|, action);
  }

  /** What matches, written out: approved for this action, target and evidence and unexpired at its reading. */
  lemma LiveIs(f: Flow, i: nat, action: string, evidence: string, target: string, clock: Clock)
    requires i < |f.approvals|
    ensures var a := f.approvals[i];
            Live(f, i, action, evidence, target, clock) <==>
            && a.status == Status.APPROVED && a.action == action && a.target == target && a.evidence == evidence
            && clock(f.ticks + |ApprovedBefore(f.approvals, i, action)|) < a.expires
  {
    hide Earlier, ApprovedBefore;
    EarlierCounts(f.approvals, i, action);
  }

  // ------------------------------------------------------------ whole runs

  datatype Call =
    | Request(id: string, action: string, evidence: string, target: string)
    | Approve(id: string, approver: string)
    | Require(action: string, evidence: string, target: string)

  /** `uuid4` never repeats an identifier: a request with a used one cannot occur. */
  function Step(f: Flow, c: Call, ttl: int, clock: Clock): Flow {
    match c
    case Request(id, action, evidence, target) =>
      if Find(f.approvals, id) < |f.approvals| then f else Requested(f, id, action, evidence, target, ttl, clock)
    case Approve(id, approver) => Approved(f, id, approver, clock).f
    case Require(action, evidence, target) => Required(f, action, evidence, target, clock).f
  }

  function Run(f: Flow, cs: seq<Call>, ttl: int, clock: Clock): Flow
    decreases |cs|
  {
    if cs == [] then f else Run(Step(f, cs[0], ttl, clock), cs[1..], ttl, clock)
  }

  /** A request with an unused identifier is recorded. */
  lemma FreshRequest(f: Flow, id: string, action: string, evidence: string, target: string, ttl: int, clock: Clock)
    requires forall i :: 0 <= i < |f.approvals| ==> f.approvals[i].id != id
    ensures Step(f, Call.Request(id, action, evidence, target), ttl, clock)
            == Requested(f, id, action, evidence, target, ttl, clock)
  {
  }

  /** The other calls are what they answer, and a used identifier is never requested again. */
  lemma CallsAre(f: Flow, id: string, person: string, action: string, evidence: string, target: string, ttl: int,
                 clock: Clock)
    ensures Step(f, Call.Approve(id, person), ttl, clock) == Approved(f, id, person, clock).f
    ensures Step(f, Require(action, evidence, target), ttl, clock) == Required(f, action, evidence, target, clock).f
    ensures (exists i :: 0 <= i < |f.approvals| && f.approvals[i].id == id) ==>
              Step(f, Call.Request(id, action, evidence, target), ttl, clock) == f
  {
    hide Sweep, FirstMatch;
  }

  /** Invalid for good: no call approves it again. */
  predicate Spent(a: Approval) {
    a.status.STALE? || a.status.EXPIRED?
  }

  /** The same request later: its bindings never change, and once spent it stays spent. */
  ghost predicate Later(a: Approval, b: Approval) {
    && b.id == a.id && b.action == a.action && b.target == a.target && b.evidence == a.evidence
    && b.requestedAt == a.requestedAt && b.expires == a.expires
    && (Spent(a) ==> Spent(b))
    && (!a.status.PENDING? ==> !b.status.PENDING? && b.approvedBy == a.approvedBy && b.approvedAt == a.approvedAt)
  }

  ghost predicate Continues(f: Flow, g: Flow) {
    && |f.approvals| <= |g.approvals| && f.ticks <= g.ticks
    && forall i :: 0 <= i < |f.approvals| ==> Later(f.approvals[i], g.approvals[i])
  }

  lemma StepContinues(f: Flow, c: Call, ttl: int, clock: Clock)
    ensures Continues(f, Step(f, c, ttl, clock))
  {
    match c
    case Request(_, _, _, _) =>
    case Approve(_, _) =>
    case Require(action, evidence, target) =>
      hide Sweep, FirstMatch, Swept;
      SweepTicks(f, action, evidence, clock);
      var g := Sweep(f, action, evidence, clock);
      forall i | 0 <= i < |f.approvals|
        ensures Later(f.approvals[i], g.approvals[i])
      {
        SweepAt(f, i, action, evidence, clock);
        SweptLater(f.approvals[i], f.ticks + Earlier(f.approvals, i, action), action, evidence, clock);
      }
  }

  lemma SweptLater(a: Approval, tick: nat, action: string, evidence: string, clock: Clock)
    ensures Later(a, Swept(a, tick, action, evidence, clock))
    ensures a.action == action && a.status.APPROVED? && a.evidence != evidence
            ==> Spent(Swept(a, tick, action, evidence, clock))
  {
  }

  lemma {:induction false} RunContinues(f: Flow, cs: seq<Call>, ttl: int, clock: Clock)
    ensures Continues(f, Run(f, cs, ttl, clock))
    decreases |cs|
  {
    hide Step, Later;
    if cs == [] {
      forall a: Approval
        ensures Later(a, a)
      {
        SameLater(a);
      }
    } else {
      var g := Step(f, cs[0], ttl, clock);
      StepContinues(f, cs[0], ttl, clock);
      RunContinues(g, cs[1..], ttl, clock);
      var last := Run(g, cs[1..], ttl, clock);
      forall i | 0 <= i < |f.approvals|
        ensures Later(f.approvals[i], last.approvals[i])
      {
        LaterStill(f.approvals[i], g.approvals[i], last.approvals[i]);
      }
    }
  }

  lemma SameLater(a: Approval)
    ensures Later(a, a)
  {
  }

  lemma LaterStill(a: Approval, b: Approval, c: Approval)
    requires Later(a, b) && Later(b, c)
    ensures Later(a, c)
  {
  }

  ghost predicate DistinctIds(f: Flow) {
    forall i, j :: 0 <= i < j < |f.approvals| ==> f.approvals[i].id != f.approvals[j].id
  }

  lemma {:induction false} RunDistinct(f: Flow, cs: seq<Call>, ttl: int, clock: Clock)
    requires DistinctIds(f)
    ensures DistinctIds(Run(f, cs, ttl, clock))
    decreases |cs|
  {
    hide Step;
    if cs != [] {
      var g := Step(f, cs[0], ttl, clock);
      StepContinues(f, cs[0], ttl, clock);
      StepDistinct(f, cs[0], ttl, clock);
      RunDistinct(g, cs[1..], ttl, clock);
    }
  }

  lemma StepDistinct(f: Flow, c: Call, ttl: int, clock: Clock)
    requires DistinctIds(f)
    ensures DistinctIds(Step(f, c, ttl, clock))
  {
    StepContinues(f, c, ttl, clock);
    hide Later, Approved, Required;
    var g := Step(f, c, ttl, clock);
    forall i | 0 <= i < |f.approvals|
      ensures g.approvals[i].id == f.approvals[i].id
    {
      LaterId(f.approvals[i], g.approvals[i]);
    }
    assert |g.approvals| <= |f.approvals| + 1 && (!c.Request? ==> |g.approvals| == |f.approvals|) by {
      SameCount(f, c, ttl, clock);
    }
  }

  lemma LaterId(a: Approval, b: Approval)
    requires Later(a, b)
    ensures b.id == a.id
  {
  }

  lemma SameCount(f: Flow, c: Call, ttl: int, clock: Clock)
    ensures var n := |Step(f, c, ttl, clock).approvals|; n <= |f.approvals| + 1 && (!c.Request? ==> n == |f.approvals|)
  {
    hide Sweep, FirstMatch;
    match c
    case Request(_, _, _, _) =>
    case Approve(_, _) =>
    case Require(_, _, _) =>
  }

  /** An approval that was approved when its action was queried with other evidence is never returned
      again: not by that query, and not by any query after any further calls, even with its own evidence. */
  lemma {:induction false} StaleForever(f: Flow, i: nat, evidence: string, target: string, cs: seq<Call>,
                     action': string, evidence': string, target': string, ttl: int, clock: Clock)
    requires DistinctIds(f) && i < |f.approvals|
    requires f.approvals[i].status.APPROVED? && f.approvals[i].evidence != evidence
    ensures var a := f.approvals[i];
            var queried := Required(f, a.action, evidence, target, clock);
            var later := Required(Run(queried.f, cs, ttl, clock), action', evidence', target', clock);
            && (queried.returned.Some? ==> queried.returned.value.id != a.id)
            && (later.returned.Some? ==> later.returned.value.id != a.id)
  {
    hide Required, Run, Later;
    var a := f.approvals[i];
    var g := Required(f, a.action, evidence, target, clock).f;
    QuerySpends(f, i, evidence, target, ttl, clock);
    NeverReturned(f, i, a.action, evidence, target, ttl, clock);
    var later := Run(g, cs, ttl, clock);
    RunContinues(g, cs, ttl, clock);
    RunDistinct(g, cs, ttl, clock);
    StillSpent(g.approvals[i], later.approvals[i]);
    SpentIsNotReturned(later, i, action', evidence', target', ttl, clock);
  }

  lemma StillSpent(a: Approval, b: Approval)
    requires Spent(a) && Later(a, b)
    ensures Spent(b) && b.id == a.id
  {
  }

  lemma QuerySpends(f: Flow, i: nat, evidence: string, target: string, ttl: int, clock: Clock)
    requires DistinctIds(f) && i < |f.approvals|
    requires f.approvals[i].status.APPROVED? && f.approvals[i].evidence != evidence
    ensures var a := f.approvals[i];
            var g := Required(f, a.action, evidence, target, clock).f;
            DistinctIds(g) && |g.approvals| == |f.approvals| && Spent(g.approvals[i]) && g.approvals[i].id == a.id
  {
    hide Sweep, FirstMatch, Swept, Earlier;
    var a := f.approvals[i];
    SweepAt(f, i, a.action, evidence, clock);
    SweptLater(a, f.ticks + Earlier(f.approvals, i, a.action), a.action, evidence, clock);
    StepDistinct(f, Require(a.action, evidence, target), ttl, clock);
  }

  lemma NeverReturned(f: Flow, i: nat, action: string, evidence: string, target: string, ttl: int, clock: Clock)
    requires DistinctIds(f) && i < |f.approvals| && f.approvals[i].action == action
    requires f.approvals[i].status.APPROVED? && f.approvals[i].evidence != evidence
    ensures var r := Required(f, action, evidence, target, clock).returned; r.Some? ==> r.value.id != f.approvals[i].id
  {
    hide Sweep, FirstMatch;
    QuerySpends(f, i, evidence, target, ttl, clock);
    NotReturned(Required(f, action, evidence, target, clock).f, i, action, evidence, target);
  }

  lemma SpentIsNotReturned(f: Flow, i: nat, action: string, evidence: string, target: string, ttl: int, clock: Clock)
    requires DistinctIds(f) && i < |f.approvals| && Spent(f.approvals[i])
    ensures var r := Required(f, action, evidence, target, clock).returned; r.Some? ==> r.value.id != f.approvals[i].id
  {
    hide Sweep, FirstMatch, Later;
    var g := Required(f, action, evidence, target, clock).f;
    StepContinues(f, Require(action, evidence, target), ttl, clock);
    StepDistinct(f, Require(action, evidence, target), ttl, clock);
    StillSpent(f.approvals[i], g.approvals[i]);
    NotReturned(g, i, action, evidence, target);
  }

  lemma {:induction false} NotReturned(g: Flow, i: nat, action: string, evidence: string, target: string)
    requires DistinctIds(g) && i < |g.approvals| && Spent(g.approvals[i])
    ensures var r := FirstMatch(g.approvals, action, evidence, target); r.Some? ==> r.value.id != g.approvals[i].id
  {
    hide FirstMatch;
    FirstMatchAt(g.approvals, action, evidence, target);
    var r := FirstMatch(g.approvals, action, evidence, target);
    if r.Some? {
      var j :| 0 <= j < |g.approvals| && g.approvals[j] == r.value;
    }
  }

  // ------------------------------------------------------------ the flow object

  class Approvals {
    const ttl: int
    const clock: Clock
    var entries: seq<Approval>
    var ticks: nat

    constructor (ttl: int, clock: Clock)
      requires ttl > 0
      ensures State() == Flow([], 0) && this.ttl == ttl && this.clock == clock
    {
      this.ttl, this.clock, entries, ticks := ttl, clock, [], 0;
    }

    function State(): Flow
      reads this
    {
      Flow(entries, ticks)
    }

    method Now() returns (t: int)
      modifies `ticks
      ensures t == clock(old(ticks)) && ticks == old(ticks) + 1
    {
      t := clock(ticks);
      ticks := ticks + 1;
    }

    method RequestApproval(id: string, action: string, evidence: string, target: string) returns (a: Approval)
      modifies this
      ensures State() == Requested(old(State()), id, action, evidence, target, ttl, clock)
      ensures a == entries[|entries| - 1]
    {
      var now := Now();
      a := Approval(id, action, target, evidence, now, now + ttl, PENDING, None, None);
      entries := entries + [a];
    }

    method ApproveRequest(id: string, approver: string) returns (a: Option<Approval>)
      modifies this
      ensures Outcome(State(), a) == Approved(old(State()), id, approver, clock)
    {
      var i := Find(entries, id);
      if i == |entries| {
        return None;
      }
      var found := entries[i];
      var now := Now();
      if found.expires <= now {
        entries := entries[i := found.(status := EXPIRED)];
        return None;
      }
      if !found.status.PENDING? {
        return None;
      }
      var at := Now();
      var approved := found.(status := Status.APPROVED, approvedBy := Some(approver), approvedAt := Some(at));
      entries := entries[i := approved];
      return Some(approved);
    }

    method RequireCurrentApproval(action: string, evidence: string, target: string) returns (a: Option<Approval>)
      modifies this
      ensures Outcome(State(), a) == Required(old(State()), action, evidence, target, clock)
    {
      Invalidate(action, evidence);
      for i := 0 to |entries|
        invariant FirstMatch(entries, action, evidence, target) == FirstMatch(entries[i..], action, evidence, target)
      {
        assert entries[i..][1..] == entries[i + 1..];
        if Matches(entries[i], action, evidence, target) {
          return Some(entries[i]);
        }
      }
      return None;
    }

    method Invalidate(action: string, evidence: string)
      modifies this
      ensures State() == Sweep(old(State()), action, evidence, clock)
    {
      hide Sweep;
      ghost var was := State();
      assert Sweep(Flow([], was.ticks), action, evidence, clock) == Flow([], was.ticks) by {
        NothingSwept(was.ticks, action, evidence, clock);
      }
      for i := 0 to |entries|
        invariant |entries| == |was.approvals| && forall j :: i <= j < |entries| ==> entries[j] == was.approvals[j]
        invariant Flow(entries[..i], ticks) == Sweep(Flow(was.approvals[..i], was.ticks), action, evidence, clock)
      {
        ghost var before := State();
        var a := entries[i];
        if a.action == action && a.status.APPROVED? {
          var now := Now();
          if a.expires <= now {
            entries := entries[i := a.(status := EXPIRED)];
          } else if a.evidence != evidence {
            entries := entries[i := a.(status := STALE)];
          }
        }
        assert entries == before.approvals[i := Swept(a, before.ticks, action, evidence, clock)];
        assert entries[..i + 1] == before.approvals[..i] + [Swept(a, before.ticks, action, evidence, clock)];
        SweepNext(was, i, action, evidence, clock);
      }
      assert was.approvals[..|entries|] == was.approvals;
      assert entries[..|entries|] == entries;
    }
  }
}
