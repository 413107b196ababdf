/** The delta reset: bounded repairs of the mutated projections, checked by a content digest.
    It is proved equal to a full restore after any workload run. */
module DeltaReset {
  import opened Sorting
  import opened Catalog
  import opened Dataset

  // ------------------------------------------------------------ plan and digest

  /** Documents sampled from each collection, by `_id`. */
  datatype Samples = Samples(
    customers: map<int, Option<Customer>>, products: map<int, Option<Product>>, orders: map<int, Option<Order>>,
    events: map<int, Option<Event>>, inventory: map<int, Option<Stock>>)

  datatype ResetPlan = ResetPlan(
    counts: map<Collection, int>, ordersStatus: seq<(int, string)>, inventoryAvailable: seq<(int, int)>,
    samples: Samples)

  /** What the digest is taken of; the digest itself is idealised as injective. */
  datatype Payload = Payload(
    counts: map<Collection, int>, indexes: map<Collection, set<string>>, ordersStatus: map<int, string>,
    inventoryAvailable: map<int, int>, syntheticEvents: nat, samples: Samples)

  function Max(a: int, b: int): int { if a < b then b else a }

  function SampleIds(count: nat): (ids: set<int>)
    ensures ids <= Upto(count)
  {
    {1, 2, Max(1, count / 1_000), Max(1, count / 2), Max(1, count - 1), count} * Upto(count)
  }

  /** `find_one` for each sampled id. */
  function Sample<D>(t: map<int, D>, ids: set<int>): map<int, Option<D>> {
    map k | k in ids :: if k in t then Some(t[k]) else None
  }

  function SampledOrders(count: nat): set<int> {
    set k | k in SampleIds(count) && k > MUTATED_ORDERS
  }

  predicate Mutable(product: int) { 1 <= product <= MUTATED_PRODUCTS }

  function StockOf(inventory: seq<Stock>): seq<(int, int)> {
    if inventory == [] then []
    else
      var init, last := inventory[..|inventory| - 1], inventory[|inventory| - 1];
      StockOf(init) + (if Mutable(last.product) then [(|inventory|, last.available)] else [])
  }

  /** The pristine status of each mutable order. */
  function StatusOf(orders: seq<Order>): (us: seq<(int, string)>)
    requires MUTATED_ORDERS <= |orders|
    ensures |us| == MUTATED_ORDERS
    ensures forall i :: 0 <= i < |us| ==> us[i].0 == i + 1 && us[i].1 == orders[i].status
  {
    seq(MUTATED_ORDERS, i requires 0 <= i < MUTATED_ORDERS => (i + 1, orders[i].status))
  }

  function CountsOf(customers: int, products: int, orders: int, events: int, inventory: int): map<Collection, int> {
    map[Customers := customers, Products := products, Orders := orders, Events := events, Inventory := inventory]
  }

  function CountAll(db: Database): map<Collection, int> {
    CountsOf(|db.customers|, |db.products|, |db.orders|, |db.events|, |db.inventory|)
  }

  /** The pristine mutable projections and samples, read from the snapshot. */
  function BuildPlan(s: Snapshot): ResetPlan
    requires Layout(s)
  {
    ResetPlan(
      CountsOf(|s.customers|, |s.products|, |s.orders|, |s.events|, |s.inventory|),
      StatusOf(s.orders),
      StockOf(s.inventory),
      Samples(
        Sample(Table(s.customers), SampleIds(|s.customers|)), Sample(Table(s.products), SampleIds(|s.products|)),
        Sample(Table(s.orders), SampledOrders(|s.orders|)), Sample(Table(s.events), SampleIds(|s.events|)),
        Sample(Table(s.inventory), SampleIds(|s.inventory|))))
  }

  function AsMap<V>(xs: seq<(int, V)>): map<int, V> {
    if xs == [] then map[] else AsMap(xs[..|xs| - 1])[xs[|xs| - 1].0 := xs[|xs| - 1].1]
  }

  /** The payload whose digest the plan expects. */
  function Expected(plan: ResetPlan): Payload {
    Payload(plan.counts, PristineIndexes(), AsMap(plan.ordersStatus), AsMap(plan.inventoryAvailable), 0, plan.samples)
  }

  function SyntheticIds(events: map<int, Event>): set<int> {
    set k | k in events && k >= EVENT_BASE
  }

  function Statuses(orders: map<int, Order>): map<int, string> {
    map k | k in orders && 1 <= k <= MUTATED_ORDERS :: orders[k].status
  }

  function Levels(inventory: map<int, Stock>): map<int, int> {
    map k | k in inventory && Mutable(inventory[k].product) :: inventory[k].available
  }

  /** Re-read the sampled ids from the live database. */
  function Resample(db: Database, s: Samples): Samples {
    Samples(
      Sample(db.customers, s.customers.Keys), Sample(db.products, s.products.Keys), Sample(db.orders, s.orders.Keys),
      Sample(db.events, s.events.Keys), Sample(db.inventory, s.inventory.Keys))
  }

  /** The payload of the live database. */
  function Observed(db: Database, plan: ResetPlan): Payload {
    Payload(
      CountAll(db), db.indexes,
      Statuses(db.orders), Levels(db.inventory),
      |SyntheticIds(db.events)|,
      Resample(db, plan.samples))
  }

  // ------------------------------------------------------------ the repairs

  /** `bulk_write` of one `update_one` by `_id` each: nothing happens when there is no such document. */
  function BulkWrite<D, V>(docs: map<int, D>, us: seq<(int, V)>, put: (D, V) -> D): map<int, D> {
    if us == [] then docs
    else
      var before, u := BulkWrite(docs, us[..|us| - 1], put), us[|us| - 1];
      if u.0 in before then before[u.0 := put(before[u.0], u.1)] else before
  }

  function PutStatus(o: Order, status: string): Order { o.(status := status) }

  function PutAvailable(i: Stock, available: int): Stock { i.(available := available) }

  function NotOwned(names: set<string>): set<string> {
    set n | n in names && !OptimizerOwned(n)
  }

  function DropOwned(indexes: map<Collection, set<string>>): map<Collection, set<string>> {
    map c | c in indexes :: NotOwned(indexes[c])
  }

  /** The database after the repairs of a delta reset. */
  function Delta(db: Database, plan: ResetPlan): Database {
    db.(indexes := DropOwned(db.indexes),
        events := db.events - SyntheticIds(db.events),
        orders := BulkWrite(db.orders, plan.ordersStatus, PutStatus),
        inventory := BulkWrite(db.inventory, plan.inventoryAvailable, PutAvailable))
  }

  // ------------------------------------------------------------ what the workload can do

  ghost predicate OrdersNear(s: Snapshot, orders: map<int, Order>) {
    && orders.Keys == Table(s.orders).Keys
    && forall k :: k in orders ==>
         && orders[k].(status := s.orders[k - 1].status) == s.orders[k - 1]
         && (k > MUTATED_ORDERS ==> orders[k] == s.orders[k - 1])
  }

  ghost predicate StockNear(s: Snapshot, inventory: map<int, Stock>) {
    && inventory.Keys == Table(s.inventory).Keys
    && forall k :: k in inventory ==>
         && inventory[k].(available := s.inventory[k - 1].available) == s.inventory[k - 1]
         && (!Mutable(s.inventory[k - 1].product) ==> inventory[k] == s.inventory[k - 1])
  }

  ghost predicate EventsNear(s: Snapshot, events: map<int, Event>) {
    && (forall k :: k in Table(s.events) ==> k in events && events[k] == s.events[k - 1])
    && (forall k :: k in events && k !in Table(s.events) ==> k >= EVENT_BASE && events[k] == Synthetic(k - EVENT_BASE))
  }

  ghost predicate IndexesNear(indexes: map<Collection, set<string>>) {
    && indexes.Keys == PristineIndexes().Keys
    && forall c, n :: c in indexes && n in indexes[c] && n != "_id_" ==> OptimizerOwned(n)
  }

  ghost predicate PrimaryKept(indexes: map<Collection, set<string>>) {
    forall c :: c in indexes ==> "_id_" in indexes[c]
  }

  /** The states a workload run can lead to from the restored one. */
  ghost predicate Near(s: Snapshot, db: Database) {
    && db.customers == Table(s.customers) && db.products == Table(s.products)
    && OrdersNear(s, db.orders) && StockNear(s, db.inventory) && EventsNear(s, db.events)
    && IndexesNear(db.indexes) && PrimaryKept(db.indexes)
  }

  lemma PristineNear()
    ensures IndexesNear(PristineIndexes()) && PrimaryKept(PristineIndexes())
  {
    hide OptimizerOwned;
    assert forall c :: c in PristineIndexes() ==> PristineIndexes()[c] == {"_id_"};
  }

  lemma RestoredNear(s: Snapshot)
    requires Layout(s)
    ensures Near(s, Restored(s))
  {
    hide Layout, IndexesNear, PrimaryKept, PristineIndexes, Upto, Table;
    PristineNear();
  }

  lemma PaidNear(s: Snapshot, orders: map<int, Order>, position: nat)
    requires OrdersNear(s, orders)
    ensures OrdersNear(s, Paid(orders, position))
  {
    hide Upto, Table;
  }

  lemma DecrementedNear(s: Snapshot, inventory: map<int, Stock>, position: nat, chosen: int)
    requires StockNear(s, inventory)
    ensures StockNear(s, Decremented(inventory, position, chosen))
  {
    hide Upto, Table;
  }

  lemma InsertedNear(s: Snapshot, events: map<int, Event>, position: nat)
    requires |s.events| < EVENT_BASE && EventsNear(s, events)
    ensures EventsNear(s, Inserted(events, position))
  {
    hide Upto, Table;
  }

  lemma IndexedNear(indexes: map<Collection, set<string>>, c: Collection, name: string)
    requires IndexesNear(indexes) && PrimaryKept(indexes)
    ensures IndexesNear(Indexed(indexes, c, name)) && PrimaryKept(Indexed(indexes, c, name))
  {
    hide OptimizerOwned, PristineIndexes;
  }

  lemma ExecuteNear(s: Snapshot, db: Database, op: Operation)
    requires Layout(s) && Near(s, db)
    ensures Near(s, Execute(db, op))
  {
    hide Table, OrdersNear, StockNear, EventsNear, IndexesNear, PrimaryKept, Paid, Decremented, Inserted, Indexed;
    match op
    case PayOrder(p) => PaidNear(s, db.orders, p);
    case DecrementStock(p, chosen) => DecrementedNear(s, db.inventory, p, chosen);
    case InsertEvent(p) => InsertedNear(s, db.events, p);
    case AddIndex(c, name) => IndexedNear(db.indexes, c, name);
    case NoEffect =>
  }

  lemma {:induction false} ReplayNear(s: Snapshot, db: Database, ops: seq<Operation>)
    requires Layout(s) && Near(s, db)
    ensures Near(s, Replay(db, ops))
    decreases |ops|
  {
    hide Near, Execute, Layout;
    if ops != [] {
      ExecuteNear(s, db, ops[0]);
      ReplayNear(s, Execute(db, ops[0]), ops[1..]);
    }
  }

  // ------------------------------------------------------------ bulk writes

  ghost predicate DistinctIds<V>(us: seq<(int, V)>) {
    forall i, j :: 0 <= i < j < |us| ==> us[i].0 != us[j].0
  }

  lemma {:induction false} BulkWriteEffect<D, V>(docs: map<int, D>, us: seq<(int, V)>, put: (D, V) -> D)
    requires DistinctIds(us)
    ensures var r := BulkWrite(docs, us, put);
            && r.Keys == docs.Keys
            && (forall k :: k in docs && (forall i :: 0 <= i < |us| ==> us[i].0 != k) ==> r[k] == docs[k])
            && (forall i :: 0 <= i < |us| && us[i].0 in docs ==> r[us[i].0] == put(docs[us[i].0], us[i].1))
  {
    if us != [] {
      var init := us[..|us| - 1];
      BulkWriteEffect(docs, init, put);
      assert forall i :: 0 <= i < |init| ==> init[i] == us[i];
    }
  }

  /** The server may apply an unordered bulk in any order: with distinct ids the result is the same. */
  lemma {:induction false} BulkWriteUnordered<D, V>(docs: map<int, D>, us: seq<(int, V)>, vs: seq<(int, V)>,
                                                    put: (D, V) -> D)
    requires DistinctIds(us) && DistinctIds(vs) && multiset(us) == multiset(vs)
    ensures BulkWrite(docs, us, put) == BulkWrite(docs, vs, put)
  {
    BulkWriteEffect(docs, us, put);
    BulkWriteEffect(docs, vs, put);
    SameElements(us, vs);
    var r, r' := BulkWrite(docs, us, put), BulkWrite(docs, vs, put);
    forall k | k in docs
      ensures r[k] == r'[k]
    {
      if i :| 0 <= i < |us| && us[i].0 == k {
        assert us[i] in vs;
      } else {
        forall j | 0 <= j < |vs|
          ensures vs[j].0 != k
        {
          assert vs[j] in us;
        }
      }
    }
  }

  lemma {:induction false} AsMapIs<V>(us: seq<(int, V)>)
    requires DistinctIds(us)
    ensures forall k :: k in AsMap(us) ==> exists i :: 0 <= i < |us| && us[i].0 == k
    ensures forall i :: 0 <= i < |us| ==> us[i].0 in AsMap(us) && AsMap(us)[us[i].0] == us[i].1
  {
    if us != [] {
      var init := us[..|us| - 1];
      AsMapIs(init);
      assert forall i :: 0 <= i < |init| ==> init[i] == us[i];
    }
  }

  ghost predicate Planned(inventory: seq<Stock>, u: (int, int)) {
    1 <= u.0 <= |inventory| && Mutable(inventory[u.0 - 1].product) && u.1 == inventory[u.0 - 1].available
  }

  /** The planned stock levels: one entry for every document of a mutable product, in id order. */
  lemma {:induction false} StockOfIs(inventory: seq<Stock>)
    ensures var us := StockOf(inventory);
            && (forall i, j :: 0 <= i < j < |us| ==> us[i].0 < us[j].0)
            && (forall u :: u in us <==> Planned(inventory, u))
  {
    if inventory != [] {
      var init, last := inventory[..|inventory| - 1], inventory[|inventory| - 1];
      StockOfIs(init);
      forall u
        ensures Planned(inventory, u)
                <==> Planned(init, u) || (u == (|inventory|, last.available) && Mutable(last.product))
      {
      }
      var us := StockOf(init);
      assert forall i :: 0 <= i < |us| ==> us[i] in us;
    }
  }
}
