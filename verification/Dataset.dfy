/** The CommerceBench data set: five generated collections and the database holding them. */
module Dataset {

  datatype Customer = Customer(id: int, business: bool, region: nat)
  datatype Product = Product(id: int, category: nat, priceCents: int)
  datatype Order = Order(id: int, customer: int, product: int, quantity: int, status: string)
  datatype Event = Event(id: int, customer: int, eventType: string, sequence: int)
  datatype Stock = Stock(id: int, product: int, available: int)

  /** A generated data set; its fingerprint is a digest of all of it, so the snapshot stands for it. */
  datatype Snapshot = Snapshot(
    customers: seq<Customer>, products: seq<Product>, orders: seq<Order>, events: seq<Event>, inventory: seq<Stock>)

  datatype Collection = Customers | Products | Orders | Events | Inventory

  const COLLECTIONS: seq<Collection> := [Customers, Products, Orders, Events, Inventory]

  datatype Database = Database(
    customers: map<int, Customer>, products: map<int, Product>, orders: map<int, Order>,
    events: map<int, Event>, inventory: map<int, Stock>, indexes: map<Collection, set<string>>)

  const PAID: string := "paid"
  const MUTATED_ORDERS: int := 10_000
  const MUTATED_PRODUCTS: int := 500
  const EVENT_BASE: int := 10_000_000

  /** The numbers from 1 to `n`. */
  function Upto(n: nat): (s: set<int>)
    ensures forall k :: k in s <==> 1 <= k <= n
    ensures |s| == n
  {
    if n == 0 then {} else Upto(n - 1) + {n}
  }

  /** Documents numbered from 1 in sequence order, by `_id`. */
  function Table<D>(docs: seq<D>): (t: map<int, D>)
    ensures t.Keys == Upto(|docs|)
    ensures forall k :: k in t <==> 1 <= k <= |docs|
    ensures forall k :: k in t ==> t[k] == docs[k - 1]
  {
    map k | k in Upto(|docs|) :: docs[k - 1]
  }

  function PristineIndexes(): map<Collection, set<string>> {
    map[Customers := {"_id_"}, Products := {"_id_"}, Orders := {"_id_"}, Events := {"_id_"}, Inventory := {"_id_"}]
  }

  /** The state a full restore builds: every collection dropped and inserted again. */
  function Restored(s: Snapshot): Database {
    Database(Table(s.customers), Table(s.products), Table(s.orders), Table(s.events), Table(s.inventory),
             PristineIndexes())
  }

  /** The layout the delta reset relies on. */
  ghost predicate Layout(s: Snapshot) {
    && (forall i :: 0 <= i < |s.customers| ==> s.customers[i].id == i + 1)
    && (forall i :: 0 <= i < |s.products| ==> s.products[i].id == i + 1)
    && (forall i :: 0 <= i < |s.orders| ==> s.orders[i].id == i + 1)
    && (forall i :: 0 <= i < |s.events| ==> s.events[i].id == i + 1)
    && (forall i :: 0 <= i < |s.inventory| ==> s.inventory[i].id == i + 1)
    && s.customers != [] && s.products != [] && s.inventory != []
    && MUTATED_ORDERS <= |s.orders|
    && 0 < |s.events| < EVENT_BASE
  }

  // ------------------------------------------------------------ generation

  datatype Profile = Smoke | Standard | Publication

  /** Record counts of customers, products, orders, events and inventory. */
  function Counts(p: Profile): (int, int, int, int, int) {
    match p
    case Smoke => (1_000, 500, 10_000, 20_000, 3_000)
    case Standard => (20_000, 10_000, 200_000, 500_000, 30_000)
    case Publication => (100_000, 50_000, 1_000_000, 2_000_000, 150_000)
  }

  function OrderStatus(id: int): string {
    if id % 3 == 0 then "created" else if id % 3 == 1 then PAID else "shipped"
  }

  function EventType(id: int): string {
    if id % 3 == 0 then "view" else if id % 3 == 1 then "cart" else "purchase"
  }

  /** The generated data set; the three functions are the draws of the seeded generator. */
  function Generate(p: Profile, price: int -> int, quantity: int -> int, available: int -> int): Snapshot {
    var (customers, products, orders, events, inventory) := Counts(p);
    Snapshot(
      seq(customers, i => Customer(i + 1, (i + 1) % 2 == 1, (i + 1) % 5)),
      seq(products, i => Product(i + 1, (i + 1) % 8, price(i + 1))),
      seq(orders, i => Order(i + 1, i % customers + 1, ((i + 1) * 7 - 1) % products + 1, quantity(i + 1),
                             OrderStatus(i + 1))),
      seq(events, i => Event(i + 1, i % customers + 1, EventType(i + 1), i + 1)),
      seq(inventory, i => Stock(i + 1, i % products + 1, available(i + 1))))
  }

  /** Every profile, whatever the generator draws, has the layout the delta reset needs. */
  lemma GeneratedLayout(p: Profile, price: int -> int, quantity: int -> int, available: int -> int)
    ensures Layout(Generate(p, price, quantity, available))
  {
  }

  // ------------------------------------------------------------ the workload

  /** One workload operation with its outcome: `chosen` is the document `update_one` picked; a read
      and an operation that raised an error are `NoEffect`. */
  datatype Operation =
    | PayOrder(position: nat)
    | DecrementStock(position: nat, chosen: int)
    | InsertEvent(position: nat)
    | AddIndex(collection: Collection, name: string)
    | NoEffect

  predicate OptimizerOwned(name: string) {
    |name| >= 10 && name[..10] == "optimizer_"
  }

  function Paid(orders: map<int, Order>, position: nat): map<int, Order> {
    var id := position % MUTATED_ORDERS + 1;
    if id in orders then orders[id := orders[id].(status := PAID)] else orders
  }

  function Decremented(inventory: map<int, Stock>, position: nat, chosen: int): map<int, Stock> {
    if chosen in inventory && inventory[chosen].product == position % MUTATED_PRODUCTS + 1
    then inventory[chosen := inventory[chosen].(available := inventory[chosen].available - 1)]
    else inventory
  }

  function Synthetic(position: nat): Event {
    Event(EVENT_BASE + position, position % 1_000 + 1, "view", EVENT_BASE + position)
  }

  function Inserted(events: map<int, Event>, position: nat): map<int, Event> {
    var id := EVENT_BASE + position;
    if id in events then events else events[id := Synthetic(position)]
  }

  function Indexed(indexes: map<Collection, set<string>>, c: Collection, name: string): map<Collection, set<string>> {
    if OptimizerOwned(name) && c in indexes then indexes[c := indexes[c] + {name}] else indexes
  }

  function Execute(db: Database, op: Operation): Database {
    match op
    case PayOrder(p) => db.(orders := Paid(db.orders, p))
    case DecrementStock(p, chosen) => db.(inventory := Decremented(db.inventory, p, chosen))
    case InsertEvent(p) => db.(events := Inserted(db.events, p))
    case AddIndex(c, name) => db.(indexes := Indexed(db.indexes, c, name))
    case NoEffect => db
  }

  function Replay(db: Database, ops: seq<Operation>): Database
    decreases |ops|
  {
    if ops == [] then db else Replay(Execute(db, ops[0]), ops[1..])
  }

  lemma {:induction false} ReplayConcat(db: Database, ops: seq<Operation>, more: seq<Operation>)
    ensures Replay(db, ops + more) == Replay(Replay(db, ops), more)
    decreases |ops|
  {
    hide Execute;
    if ops == [] {
      assert ops + more == more;
    } else {
      assert (ops + more)[1..] == ops[1..] + more;
      ReplayConcat(Execute(db, ops[0]), ops[1..], more);
    }
  }
}
