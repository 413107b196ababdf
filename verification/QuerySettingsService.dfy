/** The query-hint service as it is written; each call leaves what the protocol's
    uninterrupted run leaves. */
module QuerySettingsService {
  import opened Catalog
  import opened Lifecycle
  import opened QuerySettings
  import opened QuerySettingsOutcomes

  class Service {
    var hint: Hint
    var row: Option<Row>
    var ledger: seq<Event>
    var lock: Option<WorkerId>
    var sets: nat
    var clears: nat
    var redeploys: nat

    constructor (h0: Hint)
      ensures State() == Initial(h0).shared
    {
      hint, row, ledger, lock, sets, clears, redeploys := h0, None, [], None, 0, 0, 0;
    }

    function State(): Shared
      reads this
    {
      Shared(hint, row, ledger, lock, sets, clears, redeploys)
    }

    method Mark(status: RowStatus, after: Hint)
      modifies this
      ensures State() == MarkTx(old(State()), status, after)
    {
      if row.Some? {
        row := Some(row.value.(status := status, after := Some(after)));
      }
    }

    method Deploy(a: Action, id: WorkerId) returns (ok: bool)
      modifies this
      ensures Next(State(), Done(ok, false)) == Solo(a, old(State()), id, QAcquire)
    {
      hide Solo, Rows;
      Unfold(a, State(), id, QAcquire);
      Finished(a, State(), id, false, false);
      if lock.Some? {
        return false;
      }
      lock := Some(id);
      ok := DeployLocked(a, id);
      Unlocked(a, State(), id, ok, false);
      lock := None;
    }

    method DeployLocked(a: Action, id: WorkerId) returns (ok: bool)
      modifies this
      ensures Solo(a, old(State()), id, QIndexes) == Solo(a, State(), id, Releasing(ok, false))
    {
      hide Solo, Rows;
      Unfold(a, State(), id, QIndexes);
      if !(forall n :: n in a.allowed ==> n in a.indexNames) {
        return false;
      }
      Unfold(a, State(), id, QCurrent);
      var current := hint;
      Unfold(a, State(), id, QByKey(current));
      if row.Some? {
        if row.value.status.Applied? {
          if current != Intended(a) {
            return false;
          }
          ok := AppendOnce(a, id, row.value.before, current);
          return;
        }
        if row.value.status.IntentRecorded? && current == Intended(a) {
          ok := MarkApplied(a, id, row.value.before, current);
          return;
        }
      } else if current != Unset {
        return false;
      } else {
        Unfold(a, State(), id, QIntent(current));
        row := Some(Row(IntentRecorded, current, Intended(a), None));
      }
      ok := WriteHint(a, id, current);
    }

    method WriteHint(a: Action, id: WorkerId, before: Hint) returns (ok: bool)
      modifies this
      ensures Solo(a, old(State()), id, QSet(before)) == Solo(a, State(), id, Releasing(ok, false))
    {
      hide Solo, Rows;
      Unfold(a, State(), id, QSet(before));
      redeploys := redeploys + if Undoing(State()) then 1 else 0;
      hint := Intended(a);
      sets := sets + 1;
      Unfold(a, State(), id, QObserve(before));
      ok := MarkApplied(a, id, before, hint);
    }

    method MarkApplied(a: Action, id: WorkerId, before: Hint, observed: Hint) returns (ok: bool)
      modifies this
      ensures Solo(a, old(State()), id, QMark(before, observed)) == Solo(a, State(), id, Releasing(ok, false))
    {
      hide Solo, Rows;
      Unfold(a, State(), id, QMark(before, observed));
      Mark(Applied, observed);
      ok := AppendOnce(a, id, before, observed);
    }

    method AppendOnce(a: Action, id: WorkerId, before: Hint, after: Hint) returns (ok: bool)
      modifies this
      ensures ok && Solo(a, old(State()), id, QCheck(before, after)) == Solo(a, State(), id, Releasing(true, false))
    {
      hide Solo, Rows;
      Unfold(a, State(), id, QCheck(before, after));
      if Rows(ledger, false) == 0 {
        Unfold(a, State(), id, QAppend(before, after));
        ledger := ledger + [SettingsApplied(before, Intended(a), after)];
      }
      ok := true;
    }

    method Rollback(a: Action, id: WorkerId) returns (ok: bool)
      modifies this
      ensures Next(State(), Done(ok, true)) == Solo(a, old(State()), id, KById)
    {
      hide Solo, Rows;
      Unfold(a, State(), id, KById);
      Finished(a, State(), id, false, true);
      if row.None? || row.value.status.IntentRecorded? {
        return false;
      }
      var deployment := row.value;
      Unfold(a, State(), id, KAcquire(deployment));
      if lock.Some? {
        return false;
      }
      lock := Some(id);
      ok := RollbackLocked(a, id, deployment);
      Unlocked(a, State(), id, ok, true);
      lock := None;
    }

    method RollbackLocked(a: Action, id: WorkerId, d: Row) returns (ok: bool)
      modifies this
      ensures Solo(a, old(State()), id, KCurrent(d)) == Solo(a, State(), id, Releasing(ok, true))
    {
      hide Solo, Rows;
      Unfold(a, State(), id, KCurrent(d));
      var current := hint;
      if d.status.RolledBack? {
        if current != d.before {
          return false;
        }
        ok := AppendUndone(a, id, d, current);
        return;
      }
      if current == d.before && d.status.RollbackIntent? {
        ok := MarkUndone(a, id, d, current);
        return;
      }
      if current != d.intended {
        return false;
      }
      ok := RestoreHint(a, id, d, current);
    }

    method RestoreHint(a: Action, id: WorkerId, d: Row, current: Hint) returns (ok: bool)
      modifies this
      ensures Solo(a, old(State()), id, KIntent(d, current)) == Solo(a, State(), id, Releasing(ok, true))
    {
      hide Solo, Rows;
      Unfold(a, State(), id, KIntent(d, current));
      Mark(RollbackIntent, current);
      Unfold(a, State(), id, KSet(d));
      hint := d.before;
      clears := clears + 1;
      Unfold(a, State(), id, KObserve(d));
      ok := MarkUndone(a, id, d, hint);
    }

    method MarkUndone(a: Action, id: WorkerId, d: Row, observed: Hint) returns (ok: bool)
      modifies this
      ensures Solo(a, old(State()), id, KMark(d, observed)) == Solo(a, State(), id, Releasing(ok, true))
    {
      hide Solo, Rows;
      Unfold(a, State(), id, KMark(d, observed));
      Mark(RolledBack, observed);
      ok := AppendUndone(a, id, d, observed);
    }

    method AppendUndone(a: Action, id: WorkerId, d: Row, after: Hint) returns (ok: bool)
      modifies this
      ensures ok && Solo(a, old(State()), id, KCheck(d, after)) == Solo(a, State(), id, Releasing(true, true))
    {
      hide Solo, Rows;
      Unfold(a, State(), id, KCheck(d, after));
      if Rows(ledger, true) == 0 {
        Unfold(a, State(), id, KAppend(d, after));
        ledger := ledger + [SettingsRolledBack(d.intended, d.before, after)];
      }
      ok := true;
    }
  }
}
