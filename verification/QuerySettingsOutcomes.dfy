/** What a query-hint call leaves from each of its program points, on a hint and a row in any state at
    all; what the call read before may be stale. */
module QuerySettingsOutcomes {
  import opened Catalog
  import opened Lifecycle
  import opened QuerySettings

  lemma {:induction false} Unfold(a: Action, sh: Shared, id: WorkerId, w: Worker)
    requires !w.Done?
    ensures var next := Exec(a, sh, id, w); Solo(a, sh, id, w) == Solo(a, next.sh, id, next.w)
  {
    hide Exec, Rank;
  }

  lemma {:induction false} Finished(a: Action, sh: Shared, id: WorkerId, ok: bool, rollback: bool)
    ensures Solo(a, sh, id, Done(ok, rollback)) == Next(sh, Done(ok, rollback))
  {
  }

  lemma {:induction false} Unlocked(a: Action, sh: Shared, id: WorkerId, ok: bool, rollback: bool)
    ensures Solo(a, sh, id, Releasing(ok, rollback)) == Next(sh.(lock := None), Done(ok, rollback))
  {
    hide Solo;
    Unfold(a, sh, id, Releasing(ok, rollback));
    Finished(a, sh.(lock := None), id, ok, rollback);
  }

  // ------------------------------------------------------------ the ledger

  /** The ledger with one row of this event's kind. */
  function Claimed(ledger: seq<Event>, e: Event): seq<Event> {
    if exists f :: f in ledger && f.SettingsRolledBack? == e.SettingsRolledBack? then ledger else ledger + [e]
  }

  lemma {:induction false} RowsAre(ledger: seq<Event>, rollback: bool)
    ensures Rows(ledger, rollback) > 0 <==> exists f :: f in ledger && f.SettingsRolledBack? == rollback
  {
    if ledger != [] {
      var init, last := ledger[..|ledger| - 1], ledger[|ledger| - 1];
      RowsAre(init, rollback);
      assert forall f :: f in ledger <==> f in init || f == last;
    }
  }

  // ------------------------------------------------------------ deploy, from its end backwards

  lemma {:induction false} AppliedClaimed(a: Action, sh: Shared, id: WorkerId, before: Hint, after: Hint)
    ensures Solo(a, sh, id, QCheck(before, after))
            == Next(sh.(ledger := Claimed(sh.ledger, SettingsApplied(before, Intended(a), after)), lock := None),
                    Done(true, false))
  {
    hide Solo, Rows;
    RowsAre(sh.ledger, false);
    Unfold(a, sh, id, QCheck(before, after));
    Unfold(a, sh, id, QAppend(before, after));
    Unlocked(a, sh.(ledger := Claimed(sh.ledger, SettingsApplied(before, Intended(a), after))), id, true, false);
  }

  /** The rows of a deployment whose hint was observed. */
  function MarkedApplied(a: Action, sh: Shared, before: Hint): Shared
    requires sh.row.Some?
  {
    sh.(row := Some(Row(Applied, sh.row.value.before, sh.row.value.intended, Some(Intended(a)))),
        ledger := Claimed(sh.ledger, SettingsApplied(before, Intended(a), Intended(a))), lock := None)
  }

  lemma {:induction false} AppliedMarked(a: Action, sh: Shared, id: WorkerId, before: Hint)
    requires sh.row.Some?
    ensures Solo(a, sh, id, QMark(before, Intended(a))) == Next(MarkedApplied(a, sh, before), Done(true, false))
  {
    hide Solo, Rows, Claimed;
    Unfold(a, sh, id, QMark(before, Intended(a)));
    AppliedClaimed(a, MarkTx(sh, Applied, Intended(a)), id, before, Intended(a));
  }

  /** The verification point: only the intended hint is marked as applied. */
  lemma {:induction false} EffectVerified(a: Action, sh: Shared, id: WorkerId, before: Hint)
    requires sh.row.Some?
    ensures Solo(a, sh, id, QObserve(before))
            == if sh.hint == Intended(a) then Next(MarkedApplied(a, sh, before), Done(true, false))
               else Next(sh.(lock := None), Done(false, false))
  {
    hide Solo, Rows, MarkedApplied;
    Unfold(a, sh, id, QObserve(before));
    AppliedMarked(a, sh, id, before);
    Unlocked(a, sh, id, false, false);
  }

  function Written(a: Action, sh: Shared): Shared {
    sh.(hint := Intended(a), sets := sh.sets + 1, redeploys := sh.redeploys + (if Undoing(sh) then 1 else 0))
  }

  lemma {:induction false} HintWritten(a: Action, sh: Shared, id: WorkerId, before: Hint)
    requires sh.row.Some?
    ensures Solo(a, sh, id, QSet(before)) == Next(MarkedApplied(a, Written(a, sh), before), Done(true, false))
  {
    hide Solo, Rows, MarkedApplied;
    Unfold(a, sh, id, QSet(before));
    EffectVerified(a, Written(a, sh), id, before);
  }

  /** A new row is inserted only when there is none for the key. */
  lemma {:induction false} IntentInserted(a: Action, sh: Shared, id: WorkerId, current: Hint)
    ensures Solo(a, sh, id, QIntent(current))
            == if sh.row.Some? then Next(sh.(lock := None), Done(false, false))
               else Next(MarkedApplied(a, Written(a, sh.(row := Some(Row(IntentRecorded, current, Intended(a), None)))),
                                       current),
                         Done(true, false))
  {
    hide Solo, Rows, MarkedApplied, Written;
    Unfold(a, sh, id, QIntent(current));
    Unlocked(a, sh, id, false, false);
    if sh.row.None? {
      HintWritten(a, sh.(row := Some(Row(IntentRecorded, current, Intended(a), None))), id, current);
    }
  }

  /** A deployment that holds the lock and has read the hint.  Without a row a set hint is a human's and
      refuses; an APPLIED row needs the intended hint and is only claimed again; an interrupted write
      that took effect is only marked; in every other case the hint is written and recorded. */
  lemma {:induction false} ObservedDeployment(a: Action, sh: Shared, id: WorkerId, current: Hint)
    ensures var end := Solo(a, sh, id, QByKey(current));
            match sh.row
            case None =>
              if current != Unset then end == Next(sh.(lock := None), Done(false, false))
              else
                end == Next(MarkedApplied(a,
                                          Written(a, sh.(row := Some(Row(IntentRecorded, Unset, Intended(a), None)))),
                                          Unset),
                            Done(true, false))
            case Some(Row(Applied, before, _, _)) =>
              if current != Intended(a) then end == Next(sh.(lock := None), Done(false, false))
              else
                end == Next(sh.(ledger := Claimed(sh.ledger, SettingsApplied(before, Intended(a), Intended(a))),
                                lock := None),
                            Done(true, false))
            case Some(Row(status, before, _, _)) =>
              end == Next(if status.IntentRecorded? && current == Intended(a) then MarkedApplied(a, sh, before)
                          else MarkedApplied(a, Written(a, sh), current),
                          Done(true, false))
  {
    hide Solo, Rows, MarkedApplied, Written, Claimed;
    Unfold(a, sh, id, QByKey(current));
    Unlocked(a, sh, id, false, false);
    match sh.row
    case None =>
      if current == Unset {
        IntentInserted(a, sh, id, current);
      }
    case Some(r) =>
      AppliedClaimed(a, sh, id, r.before, Intended(a));
      AppliedMarked(a, sh, id, r.before);
      HintWritten(a, sh, id, current);
  }

  /** One deployment call: the lock must be free and the allowed indexes present, and then the hint as it
      is now decides. */
  lemma {:induction false} DeployOutcome(a: Action, sh: Shared, id: WorkerId)
    ensures Solo(a, sh, id, QAcquire)
            == if sh.lock.Some? || exists n :: n in a.allowed && n !in a.indexNames then Next(sh, Done(false, false))
               else Solo(a, sh.(lock := Some(id)), id, QByKey(sh.hint))
  {
    hide Solo, Rows;
    var mine := sh.(lock := Some(id));
    Unfold(a, sh, id, QAcquire);
    Finished(a, sh, id, false, false);
    Unfold(a, mine, id, QIndexes);
    Unlocked(a, mine, id, false, false);
    Unfold(a, mine, id, QCurrent);
  }

  // ------------------------------------------------------------ rollback, from its end backwards

  lemma {:induction false} UndoneClaimed(a: Action, sh: Shared, id: WorkerId, d: Row, after: Hint)
    ensures Solo(a, sh, id, KCheck(d, after))
            == Next(sh.(ledger := Claimed(sh.ledger, SettingsRolledBack(d.intended, d.before, after)), lock := None),
                    Done(true, true))
  {
    hide Solo, Rows;
    RowsAre(sh.ledger, true);
    Unfold(a, sh, id, KCheck(d, after));
    Unfold(a, sh, id, KAppend(d, after));
    Unlocked(a, sh.(ledger := Claimed(sh.ledger, SettingsRolledBack(d.intended, d.before, after))), id, true, true);
  }

  /** The rows of a rollback whose restored hint was observed. */
  function MarkedUndone(sh: Shared, d: Row): Shared
    requires sh.row.Some?
  {
    sh.(row := Some(Row(RolledBack, sh.row.value.before, sh.row.value.intended, Some(d.before))),
        ledger := Claimed(sh.ledger, SettingsRolledBack(d.intended, d.before, d.before)), lock := None)
  }

  lemma {:induction false} UndoneMarked(a: Action, sh: Shared, id: WorkerId, d: Row)
    requires sh.row.Some?
    ensures Solo(a, sh, id, KMark(d, d.before)) == Next(MarkedUndone(sh, d), Done(true, true))
  {
    hide Solo, Rows, Claimed;
    Unfold(a, sh, id, KMark(d, d.before));
    UndoneClaimed(a, MarkTx(sh, RolledBack, d.before), id, d, d.before);
  }

  /** The verification point: only the recorded before state is marked as rolled back. */
  lemma {:induction false} InverseVerified(a: Action, sh: Shared, id: WorkerId, d: Row)
    requires sh.row.Some?
    ensures Solo(a, sh, id, KObserve(d))
            == if sh.hint == d.before then Next(MarkedUndone(sh, d), Done(true, true))
               else Next(sh.(lock := None), Done(false, true))
  {
    hide Solo, Rows, MarkedUndone;
    Unfold(a, sh, id, KObserve(d));
    UndoneMarked(a, sh, id, d);
    Unlocked(a, sh, id, false, true);
  }

  lemma {:induction false} HintRestored(a: Action, sh: Shared, id: WorkerId, d: Row, current: Hint)
    requires sh.row.Some?
    ensures Solo(a, sh, id, KIntent(d, current))
            == Next(MarkedUndone(sh.(hint := d.before, clears := sh.clears + 1), d), Done(true, true))
  {
    hide Solo, Rows, Claimed;
    Unfold(a, sh, id, KIntent(d, current));
    var intended := MarkTx(sh, RollbackIntent, current);
    Unfold(a, intended, id, KSet(d));
    InverseVerified(a, intended.(hint := d.before, clears := sh.clears + 1), id, d);
  }

  /** A rollback that holds the lock and goes by the row `d` it read before.  A finished one needs the
      before state in place and is only claimed again; an interrupted one whose hint is restored is
      marked ROLLED_BACK; any other needs the intended hint, which is replaced by the before state. */
  lemma {:induction false} ObservedRollback(a: Action, sh: Shared, id: WorkerId, d: Row)
    requires sh.row.Some?
    ensures var end := Solo(a, sh, id, KCurrent(d));
            if d.status.RolledBack? && sh.hint == d.before then
              end == Next(sh.(ledger := Claimed(sh.ledger, SettingsRolledBack(d.intended, d.before, d.before)),
                              lock := None),
                          Done(true, true))
            else if d.status.RollbackIntent? && sh.hint == d.before then
              end == Next(MarkedUndone(sh, d), Done(true, true))
            else if !d.status.RolledBack? && sh.hint == d.intended then
              end == Next(MarkedUndone(sh.(hint := d.before, clears := sh.clears + 1), d), Done(true, true))
            else end == Next(sh.(lock := None), Done(false, true))
  {
    hide Solo, Rows, MarkedUndone, Claimed;
    Unfold(a, sh, id, KCurrent(d));
    UndoneClaimed(a, sh, id, d, d.before);
    UndoneMarked(a, sh, id, d);
    HintRestored(a, sh, id, d, sh.hint);
    Unlocked(a, sh, id, false, true);
  }

  /** One rollback call: it needs a row past its intent and the lock. */
  lemma {:induction false} RollbackOutcome(a: Action, sh: Shared, id: WorkerId)
    ensures Solo(a, sh, id, KById)
            == if sh.row.None? || sh.row.value.status.IntentRecorded? || sh.lock.Some? then Next(sh, Done(false, true))
               else Solo(a, sh.(lock := Some(id)), id, KCurrent(sh.row.value))
  {
    hide Solo, Rows;
    Unfold(a, sh, id, KById);
    Finished(a, sh, id, false, true);
    if sh.row.Some? {
      Unfold(a, sh, id, KAcquire(sh.row.value));
    }
  }

  // ------------------------------------------------------------ exceptions and deaths

  /** An exception leaves every row alone: a call that holds the lock fails and releases it, one that has
      not taken it fails, one that is over or releasing goes on.  A death takes the call and its lock. */
  lemma FailuresExactly(a: Action, s: System, w: WorkerId)
    requires w in s.workers
    ensures var worker, after := s.workers[w], Apply(a, s, Abort(w));
            && after.shared == s.shared
            && after.workers == (if worker.Releasing? || worker.Done? then s.workers
                                 else if worker.QAcquire? then s.workers[w := Done(false, false)]
                                 else if worker.KById? || worker.KAcquire? then s.workers[w := Done(false, true)]
                                 else s.workers[w := Releasing(false, IsRollback(worker))])
    ensures var after := Apply(a, s, Crash(w));
            && after.workers.Keys == s.workers.Keys - {w}
            && (forall v :: v in after.workers ==> after.workers[v] == s.workers[v])
            && after.shared == s.shared.(lock := if s.shared.lock == Some(w) then None else s.shared.lock)
  {
  }

  /** The two kinds of calls never mix. */
  lemma KindsStay(a: Action, sh: Shared, id: WorkerId, w: Worker)
    ensures IsRollback(Exec(a, sh, id, w).w) == IsRollback(w)
    ensures !IsRollback(QAcquire) && IsRollback(KById)
    ensures forall ok, rollback :: IsRollback(Done(ok, rollback)) == rollback == IsRollback(Releasing(ok, rollback))
  {
    hide Rows;
  }
}
