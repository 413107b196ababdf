/** Deploying and rolling back one optimizer-owned query hint, one step per transaction or
    target operation, with crashes, exceptions and any number of workers. */
module QuerySettings {
  import opened Catalog
  import opened Lifecycle

  datatype Hint = Unset | Allowed(indexes: seq<string>)

  datatype RowStatus = IntentRecorded | Applied | RollbackIntent | RolledBack

  /** The deployment row of one idempotency key. */
  datatype Row = Row(status: RowStatus, before: Hint, intended: Hint, after: Option<Hint>)

  datatype Event =
    | SettingsApplied(before: Hint, intended: Hint, after: Hint)
    | SettingsRolledBack(before: Hint, intended: Hint, after: Hint)

  /** What survives a crash.  `sets` and `clears` count the hint writes, `redeploys` the writes
      of a deployment that found its row already being rolled back. */
  datatype Shared = Shared(
    hint: Hint, row: Option<Row>, ledger: seq<Event>, lock: Option<WorkerId>,
    sets: nat, clears: nat, redeploys: nat)

  /** The typed action and the index names the collection has. */
  datatype Action = Action(allowed: seq<string>, indexNames: set<string>)

  datatype Worker =
    // deploy
    | QAcquire
    | QIndexes
    | QCurrent
    | QByKey(current: Hint)
    | QIntent(current: Hint)
    | QSet(before: Hint)
    | QObserve(before: Hint)
    | QMark(before: Hint, observed: Hint)
    | QCheck(before: Hint, after: Hint)
    | QAppend(before: Hint, after: Hint)
    // rollback
    | KById
    | KAcquire(deployment: Row)
    | KCurrent(deployment: Row)
    | KIntent(deployment: Row, current: Hint)
    | KSet(deployment: Row)
    | KObserve(deployment: Row)
    | KMark(deployment: Row, observed: Hint)
    | KCheck(deployment: Row, after: Hint)
    | KAppend(deployment: Row, after: Hint)
    // both
    | Releasing(ok: bool, rollback: bool)
    | Done(ok: bool, rollback: bool)

  predicate Locked(w: Worker) {
    !(w.QAcquire? || w.KById? || w.KAcquire? || w.Done?)
  }

  datatype Next = Next(sh: Shared, w: Worker)

  function Refuse(sh: Shared, rollback: bool): Next {
    Next(sh, Releasing(false, rollback))
  }

  function Intended(a: Action): Hint {
    Allowed(a.allowed)
  }

  function Rows(ledger: seq<Event>, rollback: bool): nat {
    if ledger == [] then 0 else
      Rows(ledger[..|ledger| - 1], rollback) + (if ledger[|ledger| - 1].SettingsRolledBack? == rollback then 1 else 0)
  }

  function MarkTx(sh: Shared, status: RowStatus, after: Hint): Shared {
    match sh.row
    case Some(r) => sh.(row := Some(r.(status := status, after := Some(after))))
    case None => sh
  }

  predicate Undoing(sh: Shared) {
    sh.row.Some? && (sh.row.value.status.RollbackIntent? || sh.row.value.status.RolledBack?)
  }

  function SetTx(a: Action, sh: Shared): Shared {
    sh.(hint := Intended(a), sets := sh.sets + 1, redeploys := sh.redeploys + (if Undoing(sh) then 1 else 0))
  }

  /** What a deployment does once it has read the hint and its own row. */
  function Decide(a: Action, sh: Shared, current: Hint): Next {
    match sh.row
    case None => if current == Unset then Next(sh, QIntent(current)) else Refuse(sh, false)
    case Some(r) =>
      if r.status.Applied? then
        if current == Intended(a) then Next(sh, QCheck(r.before, current)) else Refuse(sh, false)
      else if r.status.IntentRecorded? && current == Intended(a) then Next(sh, QMark(r.before, current))
      else Next(sh, QSet(current))
  }

  /** What a rollback does once it holds the lock; its deployment row was read before. */
  function DecideRollback(a: Action, sh: Shared, d: Row): Next {
    var current := sh.hint;
    if d.status.RolledBack? then
      if current == d.before then Next(sh, KCheck(d, current)) else Refuse(sh, true)
    else if current == d.before && d.status.RollbackIntent? then Next(sh, KMark(d, current))
    else if current != d.intended then Refuse(sh, true)
    else Next(sh, KIntent(d, current))
  }

  function Exec(a: Action, sh: Shared, id: WorkerId, w: Worker): Next {
    match w
    case QAcquire => if sh.lock.None? then Next(sh.(lock := Some(id)), QIndexes) else Next(sh, Done(false, false))
    case QIndexes => if forall n :: n in a.allowed ==> n in a.indexNames then Next(sh, QCurrent) else Refuse(sh, false)
    case QCurrent => Next(sh, QByKey(sh.hint))
    case QByKey(current) => Decide(a, sh, current)
    case QIntent(current) =>
      if sh.row.Some? then Refuse(sh, false)
      else Next(sh.(row := Some(Row(IntentRecorded, current, Intended(a), None))), QSet(current))
    case QSet(before) => Next(SetTx(a, sh), QObserve(before))
    case QObserve(before) => if sh.hint == Intended(a) then Next(sh, QMark(before, sh.hint)) else Refuse(sh, false)
    case QMark(before, observed) => Next(MarkTx(sh, Applied, observed), QCheck(before, observed))
    case QCheck(before, after) =>
      Next(sh, if Rows(sh.ledger, false) > 0 then Releasing(true, false) else QAppend(before, after))
    case QAppend(before, after) =>
      Next(sh.(ledger := sh.ledger + [SettingsApplied(before, Intended(a), after)]), Releasing(true, false))
    case KById =>
      if sh.row.None? || sh.row.value.status.IntentRecorded? then Next(sh, Done(false, true))
      else Next(sh, KAcquire(sh.row.value))
    case KAcquire(d) => if sh.lock.None? then Next(sh.(lock := Some(id)), KCurrent(d)) else Next(sh, Done(false, true))
    case KCurrent(d) => DecideRollback(a, sh, d)
    case KIntent(d, current) => Next(MarkTx(sh, RollbackIntent, current), KSet(d))
    case KSet(d) => Next(sh.(hint := d.before, clears := sh.clears + 1), KObserve(d))
    case KObserve(d) => if sh.hint == d.before then Next(sh, KMark(d, sh.hint)) else Refuse(sh, true)
    case KMark(d, observed) => Next(MarkTx(sh, RolledBack, observed), KCheck(d, observed))
    case KCheck(d, after) => Next(sh, if Rows(sh.ledger, true) > 0 then Releasing(true, true) else KAppend(d, after))
    case KAppend(d, after) =>
      Next(sh.(ledger := sh.ledger + [SettingsRolledBack(d.intended, d.before, after)]), Releasing(true, true))
    case Releasing(ok, rollback) => Next(sh.(lock := None), Done(ok, rollback))
    case Done(_, _) => Next(sh, w)
  }

  function Rank(w: Worker): nat {
    match w
    case QAcquire => 12 case QIndexes => 11 case QCurrent => 10 case QByKey(_) => 9 case QIntent(_) => 8
    case QSet(_) => 7
    case QObserve(_) => 6 case QMark(_, _) => 5 case QCheck(_, _) => 4 case QAppend(_, _) => 3
    case KById => 12 case KAcquire(_) => 11 case KCurrent(_) => 10 case KIntent(_, _) => 8 case KSet(_) => 7
    case KObserve(_) => 6 case KMark(_, _) => 5 case KCheck(_, _) => 4 case KAppend(_, _) => 3
    case Releasing(_, _) => 1 case Done(_, _) => 0
  }

  lemma ExecDescends(a: Action, sh: Shared, id: WorkerId, w: Worker)
    requires !w.Done?
    ensures Rank(Exec(a, sh, id, w).w) < Rank(w)
  {
    hide Rows;
  }

  /** An uninterrupted call from `w` to its end. */
  function Solo(a: Action, sh: Shared, id: WorkerId, w: Worker): Next
    decreases Rank(w)
  {
    if w.Done? then Next(sh, w) else
      ExecDescends(a, sh, id, w);
      var next := Exec(a, sh, id, w);
      Solo(a, next.sh, id, next.w)
  }

  // ------------------------------------------------------------ the system

  datatype System = System(shared: Shared, workers: map<WorkerId, Worker>)

  datatype Label =
    | StartDeploy(w: WorkerId)
    | StartRollback(w: WorkerId)
    | Step(w: WorkerId)
    | Abort(w: WorkerId)
    | Crash(w: WorkerId)

  predicate Idle(s: System, w: WorkerId) {
    w !in s.workers || s.workers[w].Done?
  }

  predicate IsRollback(w: Worker) {
    match w
    case Releasing(_, rollback) => rollback
    case Done(_, rollback) => rollback
    case _ => w.KById? || w.KAcquire? || w.KCurrent? || w.KIntent?
              || w.KSet? || w.KObserve? || w.KMark? || w.KCheck? || w.KAppend?
  }

  function Interrupted(w: Worker): Worker {
    if w.Releasing? || w.Done? then w
    else if Locked(w) then Releasing(false, IsRollback(w)) else Done(false, IsRollback(w))
  }

  function Apply(a: Action, s: System, l: Label): System {
    match l
    case StartDeploy(w) => if Idle(s, w) then s.(workers := s.workers[w := QAcquire]) else s
    case StartRollback(w) => if Idle(s, w) then s.(workers := s.workers[w := KById]) else s
    case Step(w) =>
      if Idle(s, w) then s else
        var next := Exec(a, s.shared, w, s.workers[w]);
        System(next.sh, s.workers[w := next.w])
    case Abort(w) => if Idle(s, w) then s else s.(workers := s.workers[w := Interrupted(s.workers[w])])
    case Crash(w) =>
      System(if s.shared.lock == Some(w) then s.shared.(lock := None) else s.shared, s.workers - {w})
  }

  function Run(a: Action, s: System, ls: seq<Label>): System
    decreases |ls|
  {
    if ls == [] then s else Run(a, Apply(a, s, ls[0]), ls[1..])
  }

  function Initial(h0: Hint): System {
    System(Shared(h0, None, [], None, 0, 0, 0), map[])
  }
}
