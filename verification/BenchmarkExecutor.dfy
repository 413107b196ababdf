/** The benchmark executor: restores, workload windows and paired arms, as statements on the
    database it owns and on its cached reset plan. */
module BenchmarkExecutor {
  import opened Catalog
  import opened Dataset
  import opened DeltaReset
  import opened DeltaResetTheorems
  import opened WorkloadEffects

  // ------------------------------------------------------------ one workload window

  datatype Shape = Read | OrderStatusUpdate | InventoryDecrement | EventInsert

  /** What one operation met: whether it took effect, whether it raised an error to the client,
      its latency and the document `update_one` picked. */
  datatype Outcome = Outcome(applied: bool, raised: bool, latency: real, chosen: int)

  function OperationAt(schedule: seq<Shape>, position: nat, o: Outcome): Operation {
    if schedule == [] || !o.applied then NoEffect
    else
      match schedule[position % |schedule|]
      case Read => NoEffect
      case OrderStatusUpdate => PayOrder(position)
      case InventoryDecrement => DecrementStock(position, o.chosen)
      case EventInsert => InsertEvent(position)
  }

  /** The shape at a position is that of its place in its round through the schedule. */
  lemma RoundAndPlace(schedule: seq<Shape>, round: nat, place: nat, o: Outcome)
    requires place < |schedule| && o.applied
    ensures var position := round * |schedule| + place;
            OperationAt(schedule, position, o)
            == match schedule[place]
               case Read => NoEffect
               case OrderStatusUpdate => PayOrder(position)
               case InventoryDecrement => DecrementStock(position, o.chosen)
               case EventInsert => InsertEvent(position)
  {
    PlaceInRound(round, place, |schedule|);
  }

  /** An operation that did not take effect, or has no shape to run, leaves the database alone. */
  lemma NoOperation(schedule: seq<Shape>, position: nat, o: Outcome)
    requires schedule == [] || !o.applied
    ensures OperationAt(schedule, position, o) == NoEffect
  {
  }

  lemma {:induction false} PlaceInRound(round: nat, place: nat, n: nat)
    requires place < n
    ensures round * n + place >= 0 && (round * n + place) % n == place
  {
    if round > 0 {
      PlaceInRound(round - 1, place, n);
      NextRound((round - 1) * n + place, n);
      assert round * n + place == (round - 1) * n + place + n;
    }
  }

  lemma Multiple(d: int, n: nat)
    ensures d >= 1 ==> d * n >= n
    ensures d <= -1 ==> d * n + n <= 0
  {
  }

  lemma NextRound(x: nat, n: nat)
    requires n > 0
    ensures (x + n) % n == x % n
  {
    var q, r, q', r' := x / n, x % n, (x + n) / n, (x + n) % n;
    var d := q' - q - 1;
    assert q * n + r == x && q' * n + r' == x + n;
    assert d * n == r - r';
    Multiple(d, n);
  }

  /** The operations of a window that starts at `start`. */
  function Operations(schedule: seq<Shape>, start: nat, os: seq<Outcome>): (ops: seq<Operation>)
    ensures |ops| == |os|
  {
    seq(|os|, i requires 0 <= i < |os| => OperationAt(schedule, start + i, os[i]))
  }

  /** The operations of the warm-up and of the measurement that continues its positions are
      those of one window. */
  lemma WindowsJoin(schedule: seq<Shape>, start: nat, warmup: seq<Outcome>, measured: seq<Outcome>)
    ensures Operations(schedule, start, warmup + measured)
            == Operations(schedule, start, warmup) + Operations(schedule, start + |warmup|, measured)
  {
  }

  function Inserts(ops: seq<Operation>): nat {
    if ops == [] then 0 else Inserts(ops[..|ops| - 1]) + (if ops[|ops| - 1].InsertEvent? then 1 else 0)
  }

  /** Write keys never collide: every insert of a run adds a document of its own. */
  lemma {:induction false} InsertsNeverCollide(s: Snapshot, schedule: seq<Shape>, os: seq<Outcome>)
    requires |s.events| < EVENT_BASE
    ensures var db := Replay(Restored(s), Operations(schedule, 0, os));
            && |SyntheticIds(db.events)| == Inserts(Operations(schedule, 0, os))
            && (forall k :: k in db.events ==> k < EVENT_BASE + |os|)
  {
    hide Upto, Table, OperationAt, PristineIndexes, Execute, SyntheticIds;
    if os == [] {
      NoneYet(s);
    } else {
      var init, n := os[..|os| - 1], |os| - 1;
      var ops, op := Operations(schedule, 0, init), OperationAt(schedule, n, os[n]);
      InsertsNeverCollide(s, schedule, init);
      assert Operations(schedule, 0, os) == ops + [op];
      ReplayConcat(Restored(s), ops, [op]);
      var db := Replay(Restored(s), ops);
      ReplayOne(db, op);
      PositionOf(schedule, n, os[n]);
      OneMore(db, op, n);
    }
  }

  lemma NoneYet(s: Snapshot)
    requires |s.events| < EVENT_BASE
    ensures |SyntheticIds(Restored(s).events)| == 0 && forall k :: k in Restored(s).events ==> k < EVENT_BASE
  {
    hide Upto, Table, PristineIndexes;
    assert SyntheticIds(Table(s.events)) == {};
  }

  lemma OneMore(db: Database, op: Operation, n: nat)
    requires forall k :: k in db.events ==> k < EVENT_BASE + n
    requires op.InsertEvent? ==> op.position == n
    ensures |SyntheticIds(Execute(db, op).events)| == |SyntheticIds(db.events)| + (if op.InsertEvent? then 1 else 0)
    ensures forall k :: k in Execute(db, op).events ==> k < EVENT_BASE + n + 1
  {
    hide Paid, Decremented, Indexed;
    if op.InsertEvent? {
      assert SyntheticIds(Execute(db, op).events) == SyntheticIds(db.events) + {EVENT_BASE + n};
    }
  }

  lemma PositionOf(schedule: seq<Shape>, position: nat, o: Outcome)
    ensures OperationAt(schedule, position, o).InsertEvent? ==> OperationAt(schedule, position, o).position == position
  {
  }

  // ------------------------------------------------------------ the executor

  datatype Mode = DeltaMode | FullMode

  datatype Fingerprint = DigestOf(payload: Payload) | DatasetOf(snapshot: Snapshot)

  datatype Arm = Baseline | Candidate

  predicate Raised(schedule: seq<Shape>, o: Outcome) {
    schedule == [] || o.raised
  }

  predicate Late(schedule: seq<Shape>, o: Outcome, timeout: real) {
    !Raised(schedule, o) && o.latency > timeout
  }

  /** The latencies of the operations that succeeded in time. */
  function Recorded(schedule: seq<Shape>, os: seq<Outcome>, timeout: real): seq<real> {
    if os == [] then []
    else
      var last := os[|os| - 1];
      Recorded(schedule, os[..|os| - 1], timeout)
      + (if Raised(schedule, last) || Late(schedule, last, timeout) then [] else [last.latency])
  }

  function RaisedAt(schedule: seq<Shape>, os: seq<Outcome>): set<int> {
    set i | 0 <= i < |os| && Raised(schedule, os[i])
  }

  function LateAt(schedule: seq<Shape>, os: seq<Outcome>, timeout: real): set<int> {
    set i | 0 <= i < |os| && Late(schedule, os[i], timeout)
  }

  lemma RaisedAre(schedule: seq<Shape>, os: seq<Outcome>)
    ensures RaisedAt(schedule, os) == set i | 0 <= i < |os| && (schedule == [] || os[i].raised)
  {
  }

  lemma {:induction false} NothingRan(schedule: seq<Shape>, timeout: real, start: nat, db: Database)
    ensures Replay(db, Operations(schedule, start, [])) == db
    ensures RaisedAt(schedule, []) == {} && LateAt(schedule, [], timeout) == {} && Recorded(schedule, [], timeout) == []
  {
  }

  lemma {:induction false} ReplayNext(schedule: seq<Shape>, start: nat, os: seq<Outcome>, i: nat, db: Database)
    requires i < |os|
    ensures Replay(db, Operations(schedule, start, os[..i + 1]))
            == Execute(Replay(db, Operations(schedule, start, os[..i])), OperationAt(schedule, start + i, os[i]))
  {
    hide Execute, OperationAt;
    var op := OperationAt(schedule, start + i, os[i]);
    assert Operations(schedule, start, os[..i + 1]) == Operations(schedule, start, os[..i]) + [op];
    ReplayConcat(db, Operations(schedule, start, os[..i]), [op]);
    ReplayOne(Replay(db, Operations(schedule, start, os[..i])), op);
  }

  lemma {:induction false} Tallied(schedule: seq<Shape>, os: seq<Outcome>, timeout: real, i: nat)
    requires i < |os|
    ensures var raised, late := Raised(schedule, os[i]), Late(schedule, os[i], timeout);
            && |RaisedAt(schedule, os[..i + 1])| == |RaisedAt(schedule, os[..i])| + (if raised then 1 else 0)
            && |LateAt(schedule, os[..i + 1], timeout)| == |LateAt(schedule, os[..i], timeout)|
                                                          + (if late then 1 else 0)
            && Recorded(schedule, os[..i + 1], timeout)
               == Recorded(schedule, os[..i], timeout) + (if raised || late then [] else [os[i].latency])
  {
    hide Raised, Late;
    assert os[..i + 1][..i] == os[..i];
    assert RaisedAt(schedule, os[..i + 1])
           == RaisedAt(schedule, os[..i]) + (if Raised(schedule, os[i]) then {i} else {});
    assert LateAt(schedule, os[..i + 1], timeout)
           == LateAt(schedule, os[..i], timeout) + (if Late(schedule, os[i], timeout) then {i} else {});
  }

  /** Every operation raised, was late or has its latency recorded. */
  lemma {:induction false} Accounted(schedule: seq<Shape>, os: seq<Outcome>, timeout: real)
    ensures |Recorded(schedule, os, timeout)| + |RaisedAt(schedule, os)| + |LateAt(schedule, os, timeout)| == |os|
  {
    if os != [] {
      var n := |os| - 1;
      Accounted(schedule, os[..n], timeout);
      hide Recorded, RaisedAt, LateAt;
      Tallied(schedule, os, timeout, n);
      assert os[..n + 1] == os;
    }
  }

  /** A latency is recorded exactly when an operation took it, did not raise and was in time. */
  lemma {:induction false} RecordedIs(schedule: seq<Shape>, os: seq<Outcome>, timeout: real)
    ensures forall x :: x in Recorded(schedule, os, timeout) <==>
                        x <= timeout && schedule != [] && exists o :: o in os && !o.raised && o.latency == x
  {
    if os != [] {
      var init, last := os[..|os| - 1], os[|os| - 1];
      RecordedIs(schedule, init, timeout);
      assert forall o :: o in os <==> o in init || o == last;
    }
  }

  function Owned(names: set<string>): set<string> {
    set n | n in names && OptimizerOwned(n)
  }

  /** `db` without the given indexes of one collection. */
  function Stripped(db: Database, c: Collection, gone: set<string>): (r: Database)
    requires c in db.indexes
    ensures r.indexes.Keys == db.indexes.Keys
  {
    db.(indexes := db.indexes[c := db.indexes[c] - gone])
  }

  lemma StrippedMore(db: Database, c: Collection, gone: set<string>, n: string)
    requires c in db.indexes
    ensures Stripped(db, c, {}) == db
    ensures Stripped(Stripped(db, c, gone), c, {n}) == Stripped(db, c, gone + {n})
  {
    assert db.indexes[c] - {} == db.indexes[c];
    assert db.indexes[c := db.indexes[c]] == db.indexes;
    assert db.indexes[c] - gone - {n} == db.indexes[c] - (gone + {n});
  }

  lemma StrippedOwned(db: Database, c: Collection)
    requires c in db.indexes
    ensures Stripped(db, c, Owned(db.indexes[c] - {})) == db.(indexes := db.indexes[c := NotOwned(db.indexes[c])])
  {
    assert db.indexes[c] - {} == db.indexes[c];
    assert db.indexes[c] - Owned(db.indexes[c]) == NotOwned(db.indexes[c]);
  }

  /** The first `i` collections are clean. */
  ghost predicate CleanedUpTo(was: map<Collection, set<string>>, now: map<Collection, set<string>>, i: nat)
    requires i <= |COLLECTIONS|
  {
    && was.Keys == PristineIndexes().Keys && now.Keys == was.Keys
    && (forall c :: c in now ==> now[c] == if c in COLLECTIONS[..i] then NotOwned(was[c]) else was[c])
  }

  lemma CleanedNext(was: map<Collection, set<string>>, now: map<Collection, set<string>>, i: nat)
    requires i < |COLLECTIONS| && CleanedUpTo(was, now, i)
    ensures var c := COLLECTIONS[i];
            c in was && c in now && now[c] == was[c] && CleanedUpTo(was, now[c := NotOwned(now[c])], i + 1)
  {
    hide OptimizerOwned, NotOwned, PristineIndexes;
    EachOnce(i);
  }

  lemma CleanedAll(was: map<Collection, set<string>>, now: map<Collection, set<string>>)
    requires CleanedUpTo(was, now, |COLLECTIONS|)
    ensures now == DropOwned(was)
  {
    hide NotOwned, COLLECTIONS;
    EveryCollection();
  }

  // ------------------------------------------------------------ the report

  /** The names of the set, each once. */
  ghost predicate Enumerates(listed: seq<string>, names: set<string>) {
    && (forall n :: n in listed <==> n in names)
    && (forall i, j :: 0 <= i < j < |listed| ==> listed[i] != listed[j])
  }

  function Tagged(c: Collection, names: seq<string>): (r: seq<(Collection, string)>)
    ensures |r| == |names| && forall i :: 0 <= i < |r| ==> r[i] == (c, names[i])
  {
    seq(|names|, i requires 0 <= i < |names| => (c, names[i]))
  }

  function Place(c: Collection): (n: nat)
    ensures n < |COLLECTIONS| && COLLECTIONS[n] == c
  {
    match c
    case Customers => 0
    case Products => 1
    case Orders => 2
    case Events => 3
    case Inventory => 4
  }

  /** The report lists the optimizer-owned indexes of the first `n` collections, each once and the
      collections in their order. */
  ghost predicate Lists(dropped: seq<(Collection, string)>, indexes: map<Collection, set<string>>, n: nat)
    requires n <= |COLLECTIONS|
  {
    && (forall d :: d in dropped <==> Place(d.0) < n && d.0 in indexes && d.1 in Owned(indexes[d.0]))
    && (forall i, j :: 0 <= i < j < |dropped| ==> dropped[i] != dropped[j])
    && (forall i, j :: 0 <= i < j < |dropped| ==> Place(dropped[i].0) <= Place(dropped[j].0))
  }

  /** An index is left exactly when its name does not begin with the optimizer's prefix, and the report
      lists exactly the names that do. */
  ghost predicate OnlyPrefixedGone(was: map<Collection, set<string>>, now: map<Collection, set<string>>,
                                   dropped: seq<(Collection, string)>) {
    && now.Keys == was.Keys
    && (forall c, name :: c in was ==> (name in now[c] <==> name in was[c] && !HasPrefix(name)))
    && (forall d :: d in dropped <==> d.0 in was && d.1 in was[d.0] && HasPrefix(d.1))
  }

  lemma OnlyOursGone(was: map<Collection, set<string>>, dropped: seq<(Collection, string)>)
    requires Lists(dropped, was, |COLLECTIONS|)
    ensures OnlyPrefixedGone(was, DropOwned(was), dropped)
  {
    hide OptimizerOwned, HasPrefix, COLLECTIONS;
    forall c, name | c in was
      ensures name in DropOwned(was)[c] <==> name in was[c] && !HasPrefix(name)
    {
      DroppedAreOurs(was, c, name);
    }
    forall name: string
      ensures OptimizerOwned(name) <==> HasPrefix(name)
    {
      OwnedIff(name);
    }
  }

  lemma NothingListed(indexes: map<Collection, set<string>>)
    requires indexes.Keys == PristineIndexes().Keys
    ensures Lists([], indexes, 0) && CleanedUpTo(indexes, indexes, 0)
  {
    hide OptimizerOwned;
  }

  lemma ListsNext(dropped: seq<(Collection, string)>, indexes: map<Collection, set<string>>, n: nat,
                  listed: seq<string>)
    requires n < |COLLECTIONS| && Lists(dropped, indexes, n)
    requires COLLECTIONS[n] in indexes && Enumerates(listed, Owned(indexes[COLLECTIONS[n]]))
    ensures Lists(dropped + Tagged(COLLECTIONS[n], listed), indexes, n + 1)
  {
    hide Owned, COLLECTIONS;
    var c := COLLECTIONS[n];
    PlaceIs(n);
    var tagged := Tagged(c, listed);
    forall d
      ensures d in tagged <==> d.0 == c && d.1 in listed
    {
      if d.0 == c && d.1 in listed {
        var i :| 0 <= i < |listed| && listed[i] == d.1;
        assert tagged[i] == d;
      }
    }
    assert forall k: Collection :: Place(k) == n <==> k == c;
    var all := dropped + tagged;
    forall i, j | 0 <= i < j < |all|
      ensures all[i] != all[j] && Place(all[i].0) <= Place(all[j].0)
    {
      if i < |dropped| {
        assert all[i] in dropped;
      }
    }
  }

  lemma PlaceIs(n: nat)
    requires n < |COLLECTIONS|
    ensures Place(COLLECTIONS[n]) == n
  {
  }

  lemma RemovedCount(events: map<int, Event>)
    ensures |events - SyntheticIds(events)| + |SyntheticIds(events)| == |events|
  {
    var rest := events - SyntheticIds(events);
    assert events.Keys == rest.Keys + SyntheticIds(events) && rest.Keys !! SyntheticIds(events);
    assert |events| == |events.Keys| && |rest| == |rest.Keys|;
  }

  lemma TableGrows<D>(docs: seq<D>, n: nat)
    requires n < |docs|
    ensures Table(docs[..n + 1]) == Table(docs[..n])[n + 1 := docs[n]]
  {
    hide Upto, Table;
  }

  lemma EveryCollection()
    ensures forall c: Collection :: c in PristineIndexes() && c in COLLECTIONS[..|COLLECTIONS|]
  {
    assert COLLECTIONS[..|COLLECTIONS|] == COLLECTIONS;
    forall c: Collection
      ensures c in PristineIndexes() && c in COLLECTIONS
    {
      match c
      case Customers => assert c == COLLECTIONS[0];
      case Products => assert c == COLLECTIONS[1];
      case Orders => assert c == COLLECTIONS[2];
      case Events => assert c == COLLECTIONS[3];
      case Inventory => assert c == COLLECTIONS[4];
    }
  }

  lemma EachOnce(i: nat)
    requires i < |COLLECTIONS|
    ensures COLLECTIONS[i] !in COLLECTIONS[..i] && COLLECTIONS[i] in PristineIndexes()
    ensures COLLECTIONS[..i + 1] == COLLECTIONS[..i] + [COLLECTIONS[i]]
  {
  }

  lemma NearKeys(s: Snapshot, db: Database)
    requires Near(s, db)
    ensures db.indexes.Keys == PristineIndexes().Keys
  {
    hide OrdersNear, StockNear, EventsNear, PrimaryKept, Table;
  }

  class Executor {
    const mode: Mode
    const timeout: real
    var db: Database
    var plan: Option<ResetPlan>
    var planFor: Option<Snapshot>

    constructor (mode: Mode, timeout: real, db: Database)
      ensures Valid() && this.mode == mode && this.timeout == timeout && this.db == db
    {
      this.mode, this.timeout, this.db, plan, planFor := mode, timeout, db, None, None;
    }

    /** In delta mode a cached plan belongs to a data set the database has been restored to. */
    ghost predicate Valid()
      reads this
    {
      mode.DeltaMode? && plan.Some? ==>
        && planFor.Some? && Layout(planFor.value) && plan.value == BuildPlan(planFor.value)
        && Near(planFor.value, db)
    }

    method InsertMany<D>(docs: seq<D>, id: D -> int) returns (t: map<int, D>)
      requires forall i :: 0 <= i < |docs| ==> id(docs[i]) == i + 1
      ensures t == Table(docs)
    {
      hide Table, Upto;
      t := map[];
      for n := 0 to |docs|
        invariant t == Table(docs[..n])
      {
        TableGrows(docs, n);
        t := t[id(docs[n]) := docs[n]];
      }
      assert docs[..|docs|] == docs;
    }

    /** Drop every collection and insert the data set again. */
    method Restore(s: Snapshot)
      requires Layout(s)
      modifies `db
      ensures db == Restored(s)
    {
      hide Upto, Table;
      var customers := InsertMany(s.customers, (d: Customer) => d.id);
      var products := InsertMany(s.products, (d: Product) => d.id);
      var orders := InsertMany(s.orders, (d: Order) => d.id);
      var events := InsertMany(s.events, (d: Event) => d.id);
      var inventory := InsertMany(s.inventory, (d: Stock) => d.id);
      db := Database(customers, products, orders, events, inventory, PristineIndexes());
    }

    /** Drop the optimizer-owned indexes of one collection, in the order the server lists them. */
    method DropFrom(c: Collection) returns (listed: seq<string>)
      requires c in db.indexes
      modifies `db
      ensures db == old(db).(indexes := old(db.indexes)[c := NotOwned(old(db.indexes)[c])])
      ensures Enumerates(listed, Owned(old(db.indexes)[c]))
    {
      hide OptimizerOwned, Stripped;
      var all := db.indexes[c];
      StrippedMore(db, c, {}, "");
      var names := all;
      listed := [];
      ghost var gone: set<string> := {};
      while names != {}
        invariant names <= all && gone == Owned(all - names) && Enumerates(listed, gone)
        invariant db == Stripped(old(db), c, gone)
        decreases |names|
      {
        var n :| n in names;
        names := names - {n};
        assert all - names == (all - (names + {n})) + {n};
        if OptimizerOwned(n) {
          StrippedMore(old(db), c, gone, n);
          db := Stripped(db, c, {n});
          gone := gone + {n};
          listed := listed + [n];
        }
      }
      StrippedOwned(old(db), c);
    }

    /** Drop the optimizer-owned indexes of every collection; the report lists each once, collection
        by collection. */
    method DropOptimizerIndexes() returns (dropped: seq<(Collection, string)>)
      requires db.indexes.Keys == PristineIndexes().Keys
      modifies `db
      ensures db == old(db).(indexes := DropOwned(old(db.indexes)))
      ensures Lists(dropped, old(db.indexes), |COLLECTIONS|)
      ensures OnlyPrefixedGone(old(db.indexes), db.indexes, dropped)
    {
      hide OptimizerOwned, NotOwned, Owned, PristineIndexes, COLLECTIONS, CleanedUpTo, Lists, Enumerates;
      dropped := [];
      NothingListed(db.indexes);
      for i := 0 to |COLLECTIONS|
        invariant db == old(db).(indexes := db.indexes)
        invariant CleanedUpTo(old(db.indexes), db.indexes, i) && Lists(dropped, old(db.indexes), i)
      {
        EachOnce(i);
        CleanedNext(old(db.indexes), db.indexes, i);
        var listed := DropFrom(COLLECTIONS[i]);
        ListsNext(dropped, old(db.indexes), i, listed);
        dropped := dropped + Tagged(COLLECTIONS[i], listed);
      }
      CleanedAll(old(db.indexes), db.indexes);
      OnlyOursGone(old(db.indexes), dropped);
    }

    /** Repair in place, then compare the digest; `false` stands for the raised error.  The report
        names the dropped indexes and counts the removed events. */
    method DeltaReset(plan: ResetPlan)
      returns (ok: bool, digest: Payload, dropped: seq<(Collection, string)>, removed: nat)
      requires db.indexes.Keys == PristineIndexes().Keys
      modifies `db
      ensures db == Delta(old(db), plan)
      ensures digest == Observed(db, plan) && (ok <==> digest == Expected(plan))
      ensures Lists(dropped, old(db.indexes), |COLLECTIONS|)
      ensures OnlyPrefixedGone(old(db.indexes), db.indexes, dropped)
      ensures removed == |old(db.events)| - |db.events| == |SyntheticIds(old(db.events))|
    {
      hide Observed, Expected, BulkWrite, SyntheticIds, PristineIndexes, DropOwned, Lists, OnlyPrefixedGone;
      dropped := DropOptimizerIndexes();
      removed := |SyntheticIds(db.events)|;
      RemovedCount(db.events);
      db := db.(events := db.events - SyntheticIds(db.events));
      db := db.(orders := BulkWrite(db.orders, plan.ordersStatus, PutStatus));
      db := db.(inventory := BulkWrite(db.inventory, plan.inventoryAvailable, PutAvailable));
      digest := Observed(db, plan);
      ok := digest == Expected(plan);
    }

    /** Whichever mode, and whatever ran before, an arm starts from the restored data set, and
        the digest check does not fail. */
    method ResetInner(s: Snapshot) returns (ok: bool, fingerprint: Fingerprint)
      requires Valid() && Layout(s)
      modifies this
      ensures Valid() && db == Restored(s) && ok
      ensures mode.DeltaMode? ==> planFor == Some(s)
      ensures fingerprint == if mode.DeltaMode? then DigestOf(Expected(BuildPlan(s))) else DatasetOf(s)
    {
      hide Layout, Near, BuildPlan, Observed, Expected, Delta, Restored;
      RestoredNear(s);
      PristineDigest(s);
      if mode.DeltaMode? {
        if plan.None? || planFor != Some(s) {
          Restore(s);
          plan, planFor := Some(BuildPlan(s)), Some(s);
          if Observed(db, plan.value) != Expected(plan.value) {
            return false, DatasetOf(s);
          }
        }
        NearKeys(s, db);
        NearRestored(s, db);
        var repaired, digest, _, _ := DeltaReset(plan.value);
        ok, fingerprint := repaired, DigestOf(digest);
      } else {
        Restore(s);
        ok, fingerprint := true, DatasetOf(s);
      }
    }

    /** One measurement or warm-up window.  Only a measurement records, and of it the latencies of the
        operations that neither raised nor took longer than the timeout, in their order. */
    method RunWindow(schedule: seq<Shape>, start: nat, os: seq<Outcome>, record: bool)
      returns (position: nat, latencies: seq<real>, errors: nat, timeouts: nat)
      modifies `db
      ensures db == Replay(old(db), Operations(schedule, start, os))
      ensures position == start + |os|
      ensures errors == |RaisedAt(schedule, os)| == |set i | 0 <= i < |os| && (schedule == [] || os[i].raised)|
      ensures latencies == if record then Recorded(schedule, os, timeout) else []
      ensures timeouts == if record then |LateAt(schedule, os, timeout)| else 0
      ensures record ==> |latencies| + errors + timeouts == |os|
      ensures forall x :: x in latencies ==> x <= timeout
    {
      hide Execute, OperationAt, Operations, Replay, RaisedAt, LateAt, Recorded;
      NothingRan(schedule, timeout, start, db);
      position, latencies, errors, timeouts := start, [], 0, 0;
      for i := 0 to |os|
        invariant position == start + i
        invariant db == Replay(old(db), Operations(schedule, start, os[..i]))
        invariant errors == |RaisedAt(schedule, os[..i])|
        invariant timeouts == if record then |LateAt(schedule, os[..i], timeout)| else 0
        invariant latencies == if record then Recorded(schedule, os[..i], timeout) else []
      {
        var op := OperationAt(schedule, position, os[i]);
        ReplayNext(schedule, start, os, i, old(db));
        db := Execute(db, op);
        Tallied(schedule, os, timeout, i);
        if Raised(schedule, os[i]) {
          errors := errors + 1;
        } else if record {
          if os[i].latency > timeout {
            timeouts := timeouts + 1;
          } else {
            latencies := latencies + [os[i].latency];
          }
        }
        position := position + 1;
      }
      assert os[..|os|] == os;
      Accounted(schedule, os, timeout);
      RecordedIs(schedule, os, timeout);
      RaisedAre(schedule, os);
    }

    /** Warm-up, then a measurement that continues its positions. */
    method Measure(schedule: seq<Shape>, warmup: seq<Outcome>, measured: seq<Outcome>)
      returns (latencies: seq<real>, errors: nat, timeouts: nat)
      modifies `db
      ensures db == Replay(old(db), Operations(schedule, 0, warmup + measured))
      ensures |latencies| + errors + timeouts == |measured|
      ensures latencies == Recorded(schedule, measured, timeout)
    {
      hide Replay, Operations, Recorded, RaisedAt, LateAt;
      Accounted(schedule, measured, timeout);
      var position, _, _, _ := RunWindow(schedule, 0, warmup, false);
      position, latencies, errors, timeouts := RunWindow(schedule, position, measured, true);
      WindowsJoin(schedule, 0, warmup, measured);
      ReplayConcat(old(db), Operations(schedule, 0, warmup), Operations(schedule, |warmup|, measured));
    }

    /** One arm: reset, candidate setup, measurement. */
    method RunArm(s: Snapshot, arm: Arm, setup: seq<(Collection, string)>, schedule: seq<Shape>,
                  warmup: seq<Outcome>, measured: seq<Outcome>)
      returns (ok: bool, start: Database, fingerprint: Fingerprint)
      requires Valid() && Layout(s)
      modifies this
      ensures Valid() && ok && start == Restored(s)
      ensures fingerprint == if mode.DeltaMode? then DigestOf(Expected(BuildPlan(s))) else DatasetOf(s)
    {
      hide Layout, Near, BuildPlan, Expected, Restored;
      ok, fingerprint := ResetInner(s);
      start := db;
      RestoredNear(s);
      if arm.Candidate? {
        SetUp(s, setup);
      }
      ghost var before := db;
      var _, _, _ := Measure(schedule, warmup, measured);
      ReplayNear(s, before, Operations(schedule, 0, warmup + measured));
    }

    /** One pair of arms in either order: both start from the restored data set, whatever the
        candidate setup and the workload of the first arm did, and the pair is never refused. */
    method RunPair(s: Snapshot, first: Arm, setup: seq<(Collection, string)>, schedule: seq<Shape>,
                   warmups: map<Arm, seq<Outcome>>, measured: map<Arm, seq<Outcome>>)
      returns (ok: bool, starts: map<Arm, Database>)
      requires Valid() && Layout(s)
      requires warmups.Keys == measured.Keys == {Baseline, Candidate}
      modifies this
      ensures Valid() && ok
      ensures starts == map[Baseline := Restored(s), Candidate := Restored(s)]
    {
      hide Layout, Near, BuildPlan, Expected, Restored;
      var second := if first.Baseline? then Candidate else Baseline;
      var ok1, start1, print1 := RunArm(s, first, setup, schedule, warmups[first], measured[first]);
      var ok2, start2, print2 := RunArm(s, second, setup, schedule, warmups[second], measured[second]);
      starts := map[Baseline := if first.Baseline? then start1 else start2,
                    Candidate := if first.Baseline? then start2 else start1];
      ok := ok1 && ok2 && print1 == print2;
    }

    /** The candidate setup builds optimizer-owned indexes. */
    method SetUp(s: Snapshot, setup: seq<(Collection, string)>)
      requires Layout(s) && Near(s, db)
      modifies `db
      ensures Near(s, db)
    {
      hide Layout, Near, Execute;
      for i := 0 to |setup|
        invariant Near(s, db)
      {
        ExecuteNear(s, db, AddIndex(setup[i].0, setup[i].1));
        db := Execute(db, AddIndex(setup[i].0, setup[i].1));
      }
    }
  }
}
