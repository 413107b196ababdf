/** The delta reset equals the full restore after every workload run, its digest check cannot
    fail, and what the digest can tell apart among reachable states. */
module DeltaResetTheorems {
  import opened Dataset
  import opened DeltaReset

  // ------------------------------------------------------------ one lemma per repaired projection

  lemma {:induction false} OrdersRestored(s: Snapshot, orders: map<int, Order>)
    requires MUTATED_ORDERS <= |s.orders| && OrdersNear(s, orders)
    ensures BulkWrite(orders, StatusOf(s.orders), PutStatus) == Table(s.orders)
  {
    hide Upto, Table, BulkWrite, StatusOf;
    var us := StatusOf(s.orders);
    BulkWriteEffect(orders, us, PutStatus);
    forall k | k in orders
      ensures BulkWrite(orders, us, PutStatus)[k] == Table(s.orders)[k]
    {
      if k <= MUTATED_ORDERS {
        assert us[k - 1].0 == k;
      }
    }
  }

  lemma {:induction false} StockRestored(s: Snapshot, inventory: map<int, Stock>)
    requires StockNear(s, inventory)
    ensures BulkWrite(inventory, StockOf(s.inventory), PutAvailable) == Table(s.inventory)
  {
    hide Upto, Table, StockOf, BulkWrite;
    var us := StockOf(s.inventory);
    StockOfIs(s.inventory);
    BulkWriteEffect(inventory, us, PutAvailable);
    forall k | k in inventory
      ensures BulkWrite(inventory, us, PutAvailable)[k] == Table(s.inventory)[k]
    {
      var pristine := s.inventory[k - 1];
      if Mutable(pristine.product) {
        assert Planned(s.inventory, (k, pristine.available));
        var i :| 0 <= i < |us| && us[i] == (k, pristine.available);
      } else {
        assert forall i :: 0 <= i < |us| ==> us[i] in us;
      }
    }
  }

  lemma EventsRestored(s: Snapshot, events: map<int, Event>)
    requires |s.events| < EVENT_BASE && EventsNear(s, events)
    ensures events - SyntheticIds(events) == Table(s.events)
    ensures |events| == |s.events| + |SyntheticIds(events)|
  {
    hide Upto, Table;
    assert events.Keys == Upto(|s.events|) + SyntheticIds(events);
    assert Upto(|s.events|) !! SyntheticIds(events);
    assert |events| == |events.Keys|;
  }

  lemma IndexesRestored(indexes: map<Collection, set<string>>)
    requires IndexesNear(indexes) && PrimaryKept(indexes)
    ensures DropOwned(indexes) == PristineIndexes()
  {
    assert !OptimizerOwned("_id_");
    forall c | c in indexes
      ensures NotOwned(indexes[c]) == {"_id_"}
    {
    }
  }

  // ------------------------------------------------------------ delta reset refines full restore

  lemma NearRestored(s: Snapshot, db: Database)
    requires Layout(s) && Near(s, db)
    ensures Delta(db, BuildPlan(s)) == Restored(s)
  {
    hide Upto, Table, StatusOf, StockOf, SampleIds, BulkWrite;
    hide OrdersNear, StockNear, EventsNear, IndexesNear, PrimaryKept, DropOwned, PristineIndexes;
    OrdersRestored(s, db.orders);
    StockRestored(s, db.inventory);
    EventsRestored(s, db.events);
    IndexesRestored(db.indexes);
  }

  lemma SampleTwice<D>(t: map<int, D>, ids: set<int>)
    ensures Sample(t, Sample(t, ids).Keys) == Sample(t, ids)
  {
  }

  lemma StatusesOfPlan(s: Snapshot)
    requires MUTATED_ORDERS <= |s.orders|
    ensures Statuses(Table(s.orders)) == AsMap(StatusOf(s.orders))
  {
    hide Upto, Table, AsMap, StatusOf;
    var us := StatusOf(s.orders);
    AsMapIs(us);
    forall k | k in Statuses(Table(s.orders))
      ensures k in AsMap(us) && AsMap(us)[k] == Statuses(Table(s.orders))[k]
    {
      assert us[k - 1] == (k, s.orders[k - 1].status);
    }
  }

  lemma LevelsOfPlan(s: Snapshot)
    ensures Levels(Table(s.inventory)) == AsMap(StockOf(s.inventory))
  {
    hide Upto, Table, StockOf, AsMap;
    var us := StockOf(s.inventory);
    StockOfIs(s.inventory);
    AsMapIs(us);
    forall k | k in AsMap(us)
      ensures k in Levels(Table(s.inventory))
    {
      var i :| 0 <= i < |us| && us[i].0 == k;
      assert us[i] in us;
      assert Planned(s.inventory, us[i]);
    }
    forall k | k in Levels(Table(s.inventory))
      ensures k in AsMap(us) && AsMap(us)[k] == Levels(Table(s.inventory))[k]
    {
      assert Planned(s.inventory, (k, s.inventory[k - 1].available));
    }
  }

  /** The digest of the restored state is the one the plan expects. */
  lemma PristineDigest(s: Snapshot)
    requires Layout(s)
    ensures Observed(Restored(s), BuildPlan(s)) == Expected(BuildPlan(s))
  {
    hide Upto, Table, StockOf, StatusOf, SampleIds, SampledOrders, AsMap, PristineIndexes;
    hide Statuses, Levels, Sample, SyntheticIds;
    StatusesOfPlan(s);
    LevelsOfPlan(s);
    EventsRestored(s, Table(s.events));
    SampleTwice(Table(s.customers), SampleIds(|s.customers|));
    SampleTwice(Table(s.products), SampleIds(|s.products|));
    SampleTwice(Table(s.orders), SampledOrders(|s.orders|));
    SampleTwice(Table(s.events), SampleIds(|s.events|));
    SampleTwice(Table(s.inventory), SampleIds(|s.inventory|));
    assert |Table(s.customers).Keys| == |Table(s.customers)|;
  }

  /** After any workload run on any generated data set, with any indexes the candidate setup built,
      the delta reset leaves exactly the state a full restore builds, and its check passes. */
  lemma {:induction false} DeltaRefinesRestore(s: Snapshot, ops: seq<Operation>)
    requires Layout(s)
    ensures var repaired := Delta(Replay(Restored(s), ops), BuildPlan(s));
            repaired == Restored(s) && Observed(repaired, BuildPlan(s)) == Expected(BuildPlan(s))
  {
    hide Near, Replay, Delta, Observed, Expected, Layout, BuildPlan;
    RestoredNear(s);
    ReplayNear(s, Restored(s), ops);
    NearRestored(s, Replay(Restored(s), ops));
    PristineDigest(s);
  }

  // ------------------------------------------------------------ what the digest tells apart

  lemma SamplesAgree(s: Snapshot, d: Database)
    requires Near(s, d) && MUTATED_ORDERS <= |s.orders|
    ensures Sample(d.events, SampleIds(|s.events|)) == Sample(Table(s.events), SampleIds(|s.events|))
    ensures Sample(d.orders, SampledOrders(|s.orders|)) == Sample(Table(s.orders), SampledOrders(|s.orders|))
  {
    hide Table, Max, Upto, SampleIds, IndexesNear, PrimaryKept, StockNear;
  }

  lemma OrdersDetermined(s: Snapshot, o1: map<int, Order>, o2: map<int, Order>)
    requires OrdersNear(s, o1) && OrdersNear(s, o2)
    ensures Statuses(o1) == Statuses(o2) <==> o1 == o2
  {
    hide Table, Upto;
    if Statuses(o1) == Statuses(o2) {
      forall k | k in o1
        ensures o1[k] == o2[k]
      {
        if k <= MUTATED_ORDERS {
          assert Statuses(o1)[k] == o1[k].status && Statuses(o2)[k] == o2[k].status;
        }
      }
    }
  }

  lemma StockDetermined(s: Snapshot, i1: map<int, Stock>, i2: map<int, Stock>)
    requires StockNear(s, i1) && StockNear(s, i2)
    ensures Levels(i1) == Levels(i2) <==> i1 == i2
  {
    hide Table, Upto;
    if Levels(i1) == Levels(i2) {
      forall k | k in i1
        ensures i1[k] == i2[k]
      {
        if Mutable(s.inventory[k - 1].product) {
          assert k in Levels(i1) && Levels(i1)[k] == i1[k].available;
          assert k in Levels(i2) && Levels(i2)[k] == i2[k].available;
        }
      }
    }
  }

  lemma SizesAgree(s: Snapshot, d1: Database, d2: Database)
    requires Near(s, d1) && Near(s, d2)
    ensures |d1.customers| == |d2.customers| && |d1.products| == |d2.products|
    ensures |d1.orders| == |d2.orders| && |d1.inventory| == |d2.inventory|
  {
    hide Table, Upto, EventsNear, IndexesNear, PrimaryKept;
    assert d1.orders.Keys == d2.orders.Keys && d1.inventory.Keys == d2.inventory.Keys;
    assert |d1.orders| == |d1.orders.Keys| && |d2.orders| == |d2.orders.Keys|;
    assert |d1.inventory| == |d1.inventory.Keys| && |d2.inventory| == |d2.inventory.Keys|;
  }

  lemma EventsCounted(s: Snapshot, events: map<int, Event>)
    requires |s.events| < EVENT_BASE && EventsNear(s, events)
    ensures |events| == |s.events| + |SyntheticIds(events)|
  {
    EventsRestored(s, events);
  }

  lemma EventCount(customers: int, products: int, orders: int, events: int, inventory: int)
    ensures Events in CountsOf(customers, products, orders, events, inventory)
    ensures CountsOf(customers, products, orders, events, inventory)[Events] == events
  {
  }

  /** Only the synthetic events can change a count. */
  lemma CountsAgree(s: Snapshot, d1: Database, d2: Database)
    requires |s.events| < EVENT_BASE && Near(s, d1) && Near(s, d2)
    ensures CountAll(d1) == CountAll(d2) <==> |SyntheticIds(d1.events)| == |SyntheticIds(d2.events)|
  {
    hide Table, Upto, SyntheticIds, CountsOf, OrdersNear, StockNear, EventsNear, IndexesNear, PrimaryKept;
    SizesAgree(s, d1, d2);
    EventsCounted(s, d1.events);
    EventsCounted(s, d2.events);
    EventCount(|d1.customers|, |d1.products|, |d1.orders|, |d1.events|, |d1.inventory|);
    EventCount(|d2.customers|, |d2.products|, |d2.orders|, |d2.events|, |d2.inventory|);
  }

  /** With equal stock, the samples of the plan are equal. */
  lemma ResamplesAgree(s: Snapshot, d1: Database, d2: Database)
    requires Layout(s) && Near(s, d1) && Near(s, d2) && d1.inventory == d2.inventory
    ensures Resample(d1, BuildPlan(s).samples) == Resample(d2, BuildPlan(s).samples)
  {
    assert MUTATED_ORDERS <= |s.orders|;
    hide Layout, Upto, Table, StatusOf, StockOf, SampleIds, SampledOrders, Sample;
    hide OrdersNear, StockNear, EventsNear, IndexesNear, PrimaryKept;
    SamplesAgree(s, d1);
    SamplesAgree(s, d2);
    SampleKeys(s);
  }

  /** Among states a workload run can lead to, equal digests mean equal states up to which
      synthetic events exist, of which only the number is digested. */
  lemma DigestDetermines(s: Snapshot, d1: Database, d2: Database)
    requires Layout(s) && Near(s, d1) && Near(s, d2)
    ensures Observed(d1, BuildPlan(s)) == Observed(d2, BuildPlan(s))
            <==> d1.(events := d2.events) == d2 && |SyntheticIds(d1.events)| == |SyntheticIds(d2.events)|
  {
    assert |s.events| < EVENT_BASE;
    hide Layout, BuildPlan, CountAll, Resample, SyntheticIds, Statuses, Levels;
    hide OrdersNear, StockNear, EventsNear, IndexesNear, PrimaryKept;
    CountsAgree(s, d1, d2);
    OrdersDetermined(s, d1.orders, d2.orders);
    StockDetermined(s, d1.inventory, d2.inventory);
    if d1.inventory == d2.inventory {
      ResamplesAgree(s, d1, d2);
    }
  }

  lemma SampleKeys(s: Snapshot)
    ensures Sample(Table(s.orders), SampledOrders(|s.orders|)).Keys == SampledOrders(|s.orders|)
    ensures Sample(Table(s.events), SampleIds(|s.events|)).Keys == SampleIds(|s.events|)
  {
  }

  lemma NoSynthetic(s: Snapshot, events: map<int, Event>)
    requires |s.events| < EVENT_BASE && EventsNear(s, events)
    ensures |SyntheticIds(events)| == 0 <==> events == Table(s.events)
  {
    hide Upto, Table;
    if |SyntheticIds(events)| == 0 {
      assert events - SyntheticIds(events) == events;
    } else {
      var k :| k in SyntheticIds(events);
      assert k !in Table(s.events);
    }
  }

  /** The digest check accepts a state of a workload run only if it is the restored state. */
  lemma AcceptedIsRestored(s: Snapshot, db: Database)
    requires Layout(s) && Near(s, db)
    ensures Observed(db, BuildPlan(s)) == Expected(BuildPlan(s)) <==> db == Restored(s)
  {
    hide Upto, Table, BuildPlan, Expected, SyntheticIds, Observed;
    hide OrdersNear, StockNear, IndexesNear, PrimaryKept, PristineIndexes, EventsNear;
    RestoredNear(s);
    PristineDigest(s);
    DigestDetermines(s, db, Restored(s));
    NoSynthetic(s, db.events);
    NoSynthetic(s, Table(s.events));
  }

  lemma OneSynthetic(s: Snapshot, position: nat)
    requires |s.events| < EVENT_BASE
    ensures SyntheticIds(Inserted(Table(s.events), position)) == {EVENT_BASE + position}
  {
    hide Upto, Table;
  }

  lemma {:induction false} ReplayOne(db: Database, op: Operation)
    ensures Replay(db, [op]) == Execute(db, op)
  {
    hide Execute;
    assert Replay(Execute(db, op), []) == Execute(db, op);
  }

  /** Two different states of workload runs that the digest cannot tell apart: one insert each,
      at different positions of the schedule. */
  lemma DigestBlindSpot(s: Snapshot)
    requires Layout(s)
    ensures var d1, d2 := Replay(Restored(s), [InsertEvent(0)]), Replay(Restored(s), [InsertEvent(1)]);
            d1 != d2 && Observed(d1, BuildPlan(s)) == Observed(d2, BuildPlan(s))
  {
    hide Replay, Upto, Table, Near, BuildPlan, Observed, SyntheticIds, Inserted, PristineIndexes;
    var d1, d2 := Execute(Restored(s), InsertEvent(0)), Execute(Restored(s), InsertEvent(1));
    ReplayOne(Restored(s), InsertEvent(0));
    ReplayOne(Restored(s), InsertEvent(1));
    RestoredNear(s);
    ExecuteNear(s, Restored(s), InsertEvent(0));
    ExecuteNear(s, Restored(s), InsertEvent(1));
    DigestDetermines(s, d1, d2);
    OneSynthetic(s, 0);
    OneSynthetic(s, 1);
    assert EVENT_BASE in SyntheticIds(d1.events) && EVENT_BASE !in SyntheticIds(d2.events);
  }

  // ------------------------------------------------------------ what the digest sees of any database

  /** The samples: the first two and last two documents, the middle one and the one at a thousandth. */
  lemma SampledIds(count: nat, k: int)
    ensures k in SampleIds(count) <==>
            1 <= k <= count && (k <= 2 || k >= count - 1 || k == count / 2 || k == count / 1_000)
    ensures k in SampledOrders(count) <==> k in SampleIds(count) && k > 10_000
  {
    hide Upto;
  }

  lemma SampleSees<D>(t: map<int, D>, u: map<int, D>, ids: set<int>, k: int)
    requires Sample(t, ids) == Sample(u, ids) && k in ids && k in u
    ensures k in t && t[k] == u[k]
  {
    assert Sample(t, ids)[k] == Sample(u, ids)[k];
  }

  lemma StatusSeen(s: Snapshot, orders: map<int, Order>, k: int)
    requires MUTATED_ORDERS <= |s.orders| && Statuses(orders) == AsMap(StatusOf(s.orders)) && 1 <= k <= 10_000
    ensures k in orders && orders[k].status == s.orders[k - 1].status
  {
    hide Upto, Table;
    StatusesOfPlan(s);
    assert k in Statuses(Table(s.orders));
    assert k in Statuses(orders) && Statuses(orders)[k] == Statuses(Table(s.orders))[k];
  }

  lemma LevelSeen(s: Snapshot, inventory: map<int, Stock>, k: int)
    requires Levels(inventory) == AsMap(StockOf(s.inventory))
    requires k in inventory && 1 <= inventory[k].product <= 500
    ensures 1 <= k <= |s.inventory| && 1 <= s.inventory[k - 1].product <= 500
    ensures inventory[k].available == s.inventory[k - 1].available
  {
    hide Upto;
    LevelsOfPlan(s);
    assert k in Levels(inventory) && k in Levels(Table(s.inventory));
  }

  /** A database with the expected digest, however it came about: its counts and indexes are pristine, it has
      no synthetic event, every mutable order has its status, every mutable stock its level, and every
      sampled document is what it was. */
  lemma {:induction false} DigestSees(s: Snapshot, db: Database, k: int)
    requires Layout(s) && Observed(db, BuildPlan(s)) == Expected(BuildPlan(s))
    ensures |db.customers| == |s.customers| && |db.products| == |s.products| && |db.orders| == |s.orders|
    ensures |db.events| == |s.events| && |db.inventory| == |s.inventory|
    ensures db.indexes == PristineIndexes() && SyntheticIds(db.events) == {}
    ensures 1 <= k <= 10_000 ==> k in db.orders && db.orders[k].status == s.orders[k - 1].status
    ensures k in db.inventory && 1 <= db.inventory[k].product <= 500 ==>
              1 <= k <= |s.inventory| && db.inventory[k].available == s.inventory[k - 1].available
    ensures k in SampleIds(|s.customers|) ==> k in db.customers && db.customers[k] == s.customers[k - 1]
    ensures k in SampleIds(|s.products|) ==> k in db.products && db.products[k] == s.products[k - 1]
    ensures k in SampledOrders(|s.orders|) ==> k in db.orders && db.orders[k] == s.orders[k - 1]
    ensures k in SampleIds(|s.events|) ==> k in db.events && db.events[k] == s.events[k - 1]
    ensures k in SampleIds(|s.inventory|) ==> k in db.inventory && db.inventory[k] == s.inventory[k - 1]
  {
    hide Upto, Table, StatusOf, StockOf, AsMap, Statuses, Levels, Sample, SampleIds, SampledOrders, CountsOf, Layout;
    hide SyntheticIds, PristineIndexes;
    SeenParts(s, db);
    if 1 <= k <= 10_000 {
      assert MUTATED_ORDERS <= |s.orders| by { Layouts(s); }
      StatusSeen(s, db.orders, k);
    }
    if k in db.inventory && 1 <= db.inventory[k].product <= 500 {
      LevelSeen(s, db.inventory, k);
    }
    SamplesSeen(s, db, k);
  }

  lemma Layouts(s: Snapshot)
    requires Layout(s)
    ensures MUTATED_ORDERS <= |s.orders|
  {
  }

  lemma SeenParts(s: Snapshot, db: Database)
    requires Layout(s) && Observed(db, BuildPlan(s)) == Expected(BuildPlan(s))
    ensures |db.customers| == |s.customers| && |db.products| == |s.products| && |db.orders| == |s.orders|
    ensures |db.events| == |s.events| && |db.inventory| == |s.inventory|
    ensures db.indexes == PristineIndexes() && SyntheticIds(db.events) == {}
    ensures Statuses(db.orders) == AsMap(StatusOf(s.orders)) && Levels(db.inventory) == AsMap(StockOf(s.inventory))
    ensures Resample(db, BuildPlan(s).samples) == BuildPlan(s).samples
  {
    hide Upto, Table, StatusOf, StockOf, AsMap, Statuses, Levels, Sample, SampleIds, SampledOrders, CountsOf, Layout;
    hide SyntheticIds, PristineIndexes, Resample;
    CountsDiffer(|db.customers|, |db.products|, |db.orders|, |db.events|, |db.inventory|,
                 |s.customers|, |s.products|, |s.orders|, |s.events|, |s.inventory|);
  }

  lemma CountsDiffer(c: int, p: int, o: int, e: int, i: int, c': int, p': int, o': int, e': int, i': int)
    requires CountsOf(c, p, o, e, i) == CountsOf(c', p', o', e', i')
    ensures c == c' && p == p' && o == o' && e == e' && i == i'
  {
    var m, n := CountsOf(c, p, o, e, i), CountsOf(c', p', o', e', i');
    assert m[Customers] == n[Customers] && m[Products] == n[Products] && m[Orders] == n[Orders];
    assert m[Events] == n[Events] && m[Inventory] == n[Inventory];
  }

  lemma {:induction false} ResampleSees<D>(t: map<int, D>, docs: seq<D>, ids: set<int>, k: int)
    requires ids <= Upto(|docs|) && k in ids
    requires Sample(t, Sample(Table(docs), ids).Keys) == Sample(Table(docs), ids)
    ensures k in t && 1 <= k <= |docs| && t[k] == docs[k - 1]
  {
    hide Upto;
    assert Sample(Table(docs), ids).Keys == ids;
    SampleSees(t, Table(docs), ids, k);
  }

  lemma SamplesSeen(s: Snapshot, db: Database, k: int)
    requires Layout(s) && Resample(db, BuildPlan(s).samples) == BuildPlan(s).samples
    ensures k in SampleIds(|s.customers|) ==> k in db.customers && db.customers[k] == s.customers[k - 1]
    ensures k in SampleIds(|s.products|) ==> k in db.products && db.products[k] == s.products[k - 1]
    ensures k in SampledOrders(|s.orders|) ==> k in db.orders && db.orders[k] == s.orders[k - 1]
    ensures k in SampleIds(|s.events|) ==> k in db.events && db.events[k] == s.events[k - 1]
    ensures k in SampleIds(|s.inventory|) ==> k in db.inventory && db.inventory[k] == s.inventory[k - 1]
  {
    assert SampledOrders(|s.orders|) <= Upto(|s.orders|);
    hide Upto, Table, StatusOf, StockOf, Sample, SampleIds, SampledOrders, CountsOf, Layout;
    if k in SampleIds(|s.customers|) { ResampleSees(db.customers, s.customers, SampleIds(|s.customers|), k); }
    if k in SampleIds(|s.products|) { ResampleSees(db.products, s.products, SampleIds(|s.products|), k); }
    if k in SampledOrders(|s.orders|) { ResampleSees(db.orders, s.orders, SampledOrders(|s.orders|), k); }
    if k in SampleIds(|s.events|) { ResampleSees(db.events, s.events, SampleIds(|s.events|), k); }
    if k in SampleIds(|s.inventory|) { ResampleSees(db.inventory, s.inventory, SampleIds(|s.inventory|), k); }
  }
}
