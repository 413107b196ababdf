/** What a whole workload run leaves in each document, and that its writes find their documents. */
module WorkloadEffects {
  import opened Dataset
  import opened DeltaReset

  // ------------------------------------------------------------ operations that hit a document

  /** How many of the decrements took this stock document of this product. */
  function Decrements(ops: seq<Operation>, id: int, product: int): nat {
    if ops == [] then 0
    else
      var op := ops[0];
      (if op.DecrementStock? && op.chosen == id && op.position % 500 + 1 == product then 1 else 0)
      + Decrements(ops[1..], id, product)
  }

  ghost predicate Pays(ops: seq<Operation>, id: int) {
    exists i :: 0 <= i < |ops| && ops[i].PayOrder? && ops[i].position % 10_000 + 1 == id
  }

  ghost predicate InsertsAt(ops: seq<Operation>, id: int) {
    exists i :: 0 <= i < |ops| && ops[i].InsertEvent? && 10_000_000 + ops[i].position == id
  }

  ghost predicate HasPrefix(name: string) {
    exists rest: string :: name == "optimizer_" + rest
  }

  ghost predicate Builds(ops: seq<Operation>, c: Collection, name: string) {
    HasPrefix(name) && AddIndex(c, name) in ops
  }

  /** Exactly the names that begin with the ten characters of the optimizer's prefix are its own. */
  lemma OwnedIff(name: string)
    ensures OptimizerOwned(name) <==> HasPrefix(name)
  {
    if OptimizerOwned(name) {
      assert name == "optimizer_" + name[10..];
    }
  }

  // ------------------------------------------------------------ one collection at a time

  lemma StockStep(db: Database, op: Operation, id: int)
    ensures id in Execute(db, op).inventory <==> id in db.inventory
    ensures id in db.inventory ==>
              var was := db.inventory[id];
              var hit := op.DecrementStock? && op.chosen == id && op.position % 500 + 1 == was.product;
              Execute(db, op).inventory[id] == if hit then was.(available := was.available - 1) else was
  {
    hide Paid, Inserted, Indexed;
  }

  /** A stock document is lowered by one for every decrement that took it, and only there. */
  lemma {:induction false} StockAfter(db: Database, ops: seq<Operation>, id: int)
    ensures id in Replay(db, ops).inventory <==> id in db.inventory
    ensures id in db.inventory ==>
              Replay(db, ops).inventory[id]
              == db.inventory[id].(available := db.inventory[id].available
                                                - Decrements(ops, id, db.inventory[id].product))
    decreases |ops|
  {
    hide Execute;
    if ops != [] {
      StockStep(db, ops[0], id);
      StockAfter(Execute(db, ops[0]), ops[1..], id);
    }
  }

  lemma OrdersStep(db: Database, op: Operation, id: int)
    ensures id in Execute(db, op).orders <==> id in db.orders
    ensures id in db.orders ==>
              Execute(db, op).orders[id]
              == if op.PayOrder? && op.position % 10_000 + 1 == id then db.orders[id].(status := "paid")
                 else db.orders[id]
  {
    hide Decremented, Inserted, Indexed;
  }

  /** An order is paid exactly when some update took it. */
  lemma {:induction false} OrdersAfter(db: Database, ops: seq<Operation>, id: int)
    ensures id in Replay(db, ops).orders <==> id in db.orders
    ensures id in db.orders ==>
              Replay(db, ops).orders[id]
              == if Pays(ops, id) then db.orders[id].(status := "paid") else db.orders[id]
    decreases |ops|
  {
    hide Execute;
    if ops != [] {
      OrdersStep(db, ops[0], id);
      OrdersAfter(Execute(db, ops[0]), ops[1..], id);
      PaysHead(ops, id);
      hide Pays;
    }
  }

  lemma PaysHead(ops: seq<Operation>, id: int)
    requires ops != []
    ensures Pays(ops, id) <==> (ops[0].PayOrder? && ops[0].position % 10_000 + 1 == id) || Pays(ops[1..], id)
  {
    var rest := ops[1..];
    if i :| 0 <= i < |rest| && rest[i].PayOrder? && rest[i].position % 10_000 + 1 == id {
      assert ops[i + 1] == rest[i];
    }
    if i :| 0 < i < |ops| && ops[i].PayOrder? && ops[i].position % 10_000 + 1 == id {
      assert rest[i - 1] == ops[i];
    }
  }

  lemma InsertedHead(ops: seq<Operation>, id: int)
    requires ops != []
    ensures InsertsAt(ops, id)
            <==> (ops[0].InsertEvent? && 10_000_000 + ops[0].position == id) || InsertsAt(ops[1..], id)
  {
    var rest := ops[1..];
    if i :| 0 <= i < |rest| && rest[i].InsertEvent? && 10_000_000 + rest[i].position == id {
      assert ops[i + 1] == rest[i];
    }
    if i :| 0 < i < |ops| && ops[i].InsertEvent? && 10_000_000 + ops[i].position == id {
      assert rest[i - 1] == ops[i];
    }
  }

  lemma EventsStep(db: Database, op: Operation, id: int)
    ensures id in Execute(db, op).events <==> id in db.events || (op.InsertEvent? && 10_000_000 + op.position == id)
    ensures id in db.events ==> Execute(db, op).events[id] == db.events[id]
    ensures id !in db.events && op.InsertEvent? && 10_000_000 + op.position == id ==>
              Execute(db, op).events[id] == Event(id, (id - 10_000_000) % 1_000 + 1, "view", id)
  {
    hide Decremented, Paid, Indexed;
  }

  /** The events are those there were and one for every inserted position, with its contents. */
  lemma {:induction false} EventsAfter(db: Database, ops: seq<Operation>, id: int)
    ensures id in Replay(db, ops).events <==> id in db.events || InsertsAt(ops, id)
    ensures id in db.events ==> Replay(db, ops).events[id] == db.events[id]
    ensures id !in db.events && InsertsAt(ops, id) ==>
              Replay(db, ops).events[id] == Event(id, (id - 10_000_000) % 1_000 + 1, "view", id)
    decreases |ops|
  {
    hide Execute;
    if ops != [] {
      EventsStep(db, ops[0], id);
      EventsAfter(Execute(db, ops[0]), ops[1..], id);
      InsertedHead(ops, id);
      hide InsertsAt;
    }
  }

  lemma IndexesStep(db: Database, op: Operation, c: Collection, name: string)
    requires c in db.indexes
    ensures c in Execute(db, op).indexes
    ensures name in Execute(db, op).indexes[c] <==>
            name in db.indexes[c] || (HasPrefix(name) && op == AddIndex(c, name))
  {
    hide Decremented, Paid, Inserted, OptimizerOwned, HasPrefix;
    OwnedIff(name);
  }

  /** An index is there exactly when it was, or was built under the optimizer's prefix. */
  lemma {:induction false} IndexesAfter(db: Database, ops: seq<Operation>, c: Collection, name: string)
    requires c in db.indexes
    ensures c in Replay(db, ops).indexes
    ensures name in Replay(db, ops).indexes[c] <==> name in db.indexes[c] || Builds(ops, c, name)
    decreases |ops|
  {
    hide Execute, HasPrefix;
    if ops != [] {
      IndexesStep(db, ops[0], c, name);
      assert AddIndex(c, name) in ops <==> ops[0] == AddIndex(c, name) || AddIndex(c, name) in ops[1..];
      IndexesAfter(Execute(db, ops[0]), ops[1..], c, name);
    }
  }

  /** Customers and products are only read. */
  lemma {:induction false} ReadOnlyAfter(db: Database, ops: seq<Operation>)
    ensures Replay(db, ops).customers == db.customers && Replay(db, ops).products == db.products
    decreases |ops|
  {
    hide Paid, Decremented, Inserted, Indexed;
    if ops != [] {
      ReadOnlyAfter(Execute(db, ops[0]), ops[1..]);
    }
  }

  // ------------------------------------------------------------ what a clean-up leaves

  /** Dropping the optimizer's indexes leaves exactly the names without its prefix. */
  lemma DroppedAreOurs(indexes: map<Collection, set<string>>, c: Collection, name: string)
    requires c in indexes
    ensures c in DropOwned(indexes)
    ensures name in DropOwned(indexes)[c] <==> name in indexes[c] && !HasPrefix(name)
  {
    hide OptimizerOwned, HasPrefix;
    OwnedIff(name);
  }

  // ------------------------------------------------------------ generated data

  /** The sizes of the three profiles. */
  lemma GeneratedSizes(p: Profile, price: int -> int, quantity: int -> int, available: int -> int)
    ensures var s := Generate(p, price, quantity, available);
            && |s.customers| == 2 * |s.products| && |s.orders| == 20 * |s.products|
            && |s.products| == (if p.Smoke? then 500 else if p.Standard? then 10_000 else 50_000)
            && |s.events| == (if p.Smoke? then 20_000 else if p.Standard? then 500_000 else 2_000_000)
            && |s.inventory| == (if p.Smoke? then 6 else 3) * |s.products|
  {
  }

  lemma Cycles(i: nat)
    ensures ((i + 1) % 2 == 1) == (i % 2 == 0)
    ensures OrderStatus(i + 1) == ["paid", "shipped", "created"][i % 3]
    ensures EventType(i + 1) == ["cart", "purchase", "view"][i % 3]
  {
    var k := i / 3;
    assert i == 3 * k + i % 3;
  }

  /** The cyclic attributes: two segments, five regions, eight categories, three order statuses and event
      types; customers and stock take turns. */
  lemma GeneratedAttributes(p: Profile, price: int -> int, quantity: int -> int, available: int -> int, i: nat)
    ensures var s := Generate(p, price, quantity, available);
            && (i < |s.customers| ==> s.customers[i] == Customer(i + 1, i % 2 == 0, (i + 1) % 5))
            && (i < |s.products| ==> s.products[i] == Product(i + 1, (i + 1) % 8, price(i + 1)))
            && (i < |s.orders| ==>
                  s.orders[i] == Order(i + 1, 1 + i % |s.customers|, 1 + (7 * i + 6) % |s.products|, quantity(i + 1),
                                       ["paid", "shipped", "created"][i % 3]))
            && (i < |s.events| ==>
                  s.events[i] == Event(i + 1, 1 + i % |s.customers|, ["cart", "purchase", "view"][i % 3], i + 1))
            && (i < |s.inventory| ==> s.inventory[i] == Stock(i + 1, 1 + i % |s.products|, available(i + 1)))
  {
    hide OrderStatus, EventType;
    Cycles(i);
    assert (i + 1) * 7 - 1 == 7 * i + 6;
  }

  lemma InRange(x: int, n: int)
    requires n > 0
    ensures 1 <= 1 + x % n <= n
  {
  }

  /** Every reference of a generated document exists. */
  lemma GeneratedReferences(p: Profile, price: int -> int, quantity: int -> int, available: int -> int, i: nat)
    ensures var s := Generate(p, price, quantity, available);
            && (i < |s.orders| ==>
                  1 <= s.orders[i].customer <= |s.customers| && 1 <= s.orders[i].product <= |s.products|)
            && (i < |s.events| ==> 1 <= s.events[i].customer <= |s.customers|)
            && (i < |s.inventory| ==> 1 <= s.inventory[i].product <= |s.products|)
  {
    GeneratedSizes(p, price, quantity, available);
    GeneratedAttributes(p, price, quantity, available, i);
    hide Generate;
    var s := Generate(p, price, quantity, available);
    InRange(i, |s.customers|);
    InRange(i, |s.products|);
    InRange(7 * i + 6, |s.products|);
  }

  lemma Small(x: nat, n: nat)
    requires x < n
    ensures x % n == x
  {
  }

  /** Every write of the workload, at any position, finds a document. */
  lemma WritesFindDocuments(p: Profile, price: int -> int, quantity: int -> int, available: int -> int, position: nat)
    ensures var s := Generate(p, price, quantity, available);
            && position % 10_000 < |s.orders| && position % 500 < |s.inventory|
            && s.inventory[position % 500].product == position % 500 + 1
  {
    GeneratedSizes(p, price, quantity, available);
    var i := position % 500;
    GeneratedAttributes(p, price, quantity, available, i);
    hide Generate;
    Small(i, |Generate(p, price, quantity, available).products|);
  }
}
