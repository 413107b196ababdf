/** The persisted ledger: one table holding a hash chain per target. */
module ProductionLedger {
  import opened Sorting
  import opened Catalog
  import opened HashChain

  /** The recorded action; states and actions are canonical JSON texts. */
  datatype Body = Body(
    run: Option<string>, candidate: Option<string>, actionId: string, eventType: string, before: string,
    intended: string, after: string, forward: string, inverse: string, evidence: string, actor: string)

  datatype Entry = Entry(id: string, sequence: int, target: string, createdAt: int, body: Body)

  type LedgerRow = Row<Entry>
  type Hasher = (Entry, string) -> string

  /** The rows of one target, in table order. */
  function RowsOf(table: seq<LedgerRow>, target: string): seq<LedgerRow> {
    if table == [] then []
    else
      var last := table[|table| - 1];
      RowsOf(table[..|table| - 1], target) + (if last.content.target == target then [last] else [])
  }

  predicate BySequence(a: LedgerRow, b: LedgerRow) {
    a.content.sequence <= b.content.sequence
  }

  /** `SELECT … WHERE target_id = … ORDER BY sequence`. */
  function Ordered(table: seq<LedgerRow>, target: string): seq<LedgerRow> {
    Sort(RowsOf(table, target), BySequence)
  }

  predicate Contiguous(rows: seq<LedgerRow>) {
    forall i :: 0 <= i < |rows| ==> rows[i].content.sequence == i + 1
  }

  /** What `verify_target` accepts. */
  predicate Accepts(rows: seq<LedgerRow>, h: Hasher) {
    Verifies(rows, h) && Contiguous(rows)
  }

  function NextEntry(rows: seq<LedgerRow>, target: string, id: string, now: int, body: Body): Entry {
    Entry(id, if rows == [] then 1 else rows[|rows| - 1].content.sequence + 1, target, now, body)
  }

  /** The table after an insert for one target. */
  function Appended(table: seq<LedgerRow>, target: string, id: string, now: int, body: Body,
                    h: Hasher): seq<LedgerRow> {
    var rows := Ordered(table, target);
    var content := NextEntry(rows, target, id, now, body);
    table + [Row(content, Head(rows), h(content, Head(rows)))]
  }

  lemma {:induction false} ContiguousUnique(rows: seq<LedgerRow>, others: seq<LedgerRow>)
    requires Contiguous(rows) && multiset(rows) == multiset(others)
    ensures Sort(others, BySequence) == rows
  {
    SortPermutes(others, BySequence);
    SortSorted(others, BySequence);
    forall x, y | x in rows && y in rows && BySequence(x, y) && BySequence(y, x)
      ensures x == y
    {
    }
    SortedUnique(rows, Sort(others, BySequence), BySequence);
  }

  /** An insert extends its target's chain by one row and leaves every other chain alone. */
  lemma AppendExtends(table: seq<LedgerRow>, target: string, id: string, now: int, body: Body, h: Hasher, t: string)
    requires Contiguous(Ordered(table, t))
    ensures var table' := Appended(table, target, id, now, body, h);
            && Contiguous(Ordered(table', t))
            && (t != target ==> Ordered(table', t) == Ordered(table, t))
            && (t == target ==>
                  Ordered(table', t) == Append(Ordered(table, t), NextEntry(Ordered(table, t), t, id, now, body), h))
  {
    hide GENESIS, Head;
    var table' := Appended(table, target, id, now, body, h);
    var rows := Ordered(table, t);
    assert table'[..|table|] == table;
    if t == target {
      var last := table'[|table|];
      assert rows + [last] == Append(rows, last.content, h);
      SortPermutes(RowsOf(table, t), BySequence);
      assert Contiguous(rows + [last]);
      ContiguousUnique(rows + [last], RowsOf(table', t));
    } else {
      assert RowsOf(table', t) == RowsOf(table, t);
    }
  }

  lemma AppendAccepted(table: seq<LedgerRow>, target: string, id: string, now: int, body: Body, h: Hasher, t: string)
    requires Accepts(Ordered(table, t), h)
    ensures Accepts(Ordered(Appended(table, target, id, now, body, h), t), h)
  {
    hide Appended, Ordered;
    AppendExtends(table, target, id, now, body, h, t);
    if t == target {
      AppendVerifies(Ordered(table, t), NextEntry(Ordered(table, t), t, id, now, body), h);
    }
  }

  /** Under an unchanged head, any edit, deletion, insertion or reordering of a target's rows that
      verification still accepts exhibits a hash collision or a genesis preimage. */
  lemma {:induction false} TamperingDetected(honest: seq<LedgerRow>, tampered: seq<LedgerRow>, target: string,
                                             h: Hasher)
    requires Accepts(Ordered(honest, target), h)
    requires Head(Ordered(tampered, target)) == Head(Ordered(honest, target))
    requires multiset(RowsOf(tampered, target)) != multiset(RowsOf(honest, target))
    ensures var kept, found := Ordered(honest, target), Ordered(tampered, target);
            Accepts(found, h) ==> Collides(kept, found, h) || HitsGenesis(kept, h) || HitsGenesis(found, h)
  {
    hide GENESIS, Collides, HitsGenesis, Verifies;
    var kept, found := Ordered(honest, target), Ordered(tampered, target);
    SortPermutes(RowsOf(honest, target), BySequence);
    SortPermutes(RowsOf(tampered, target), BySequence);
    if Accepts(found, h) {
      HeadDetermines(kept, found, h);
    }
  }

  /** Losing the latest row goes unnoticed: what remains is accepted. */
  lemma TailLossAccepted(rows: seq<LedgerRow>, n: nat, h: Hasher)
    requires Accepts(rows, h) && n <= |rows|
    ensures Accepts(rows[..n], h)
  {
    PrefixVerifies(rows, n, h);
  }

  lemma AcceptsNext(rows: seq<LedgerRow>, i: nat, h: Hasher)
    requires i < |rows|
    ensures Accepts(rows[..i + 1], h) <==>
            Accepts(rows[..i], h) && rows[i].content.sequence == i + 1 && Linked(rows[i], Head(rows[..i]), h)
    ensures Head(rows[..i + 1]) == rows[i].hash
  {
    hide GENESIS, Linked;
    assert rows[..i + 1][..i] == rows[..i];
  }

  lemma AcceptsNothing(h: Hasher)
    ensures Accepts([], h) && Head<Entry>([]) == GENESIS
  {
  }

  class Ledger {
    const hash: Hasher
    var table: seq<LedgerRow>

    constructor (hash: Hasher)
      ensures Valid() && table == [] && this.hash == hash
    {
      this.hash, table := hash, [];
    }

    /** Every target's chain verifies, with sequence numbers 1, 2, …. */
    ghost predicate Valid()
      reads this
    {
      forall t :: Accepts(Ordered(table, t), hash)
    }

    /** Appends of any targets in any order keep every chain verifiable. */
    method Append(target: string, id: string, now: int, body: Body) returns (row: LedgerRow)
      requires Valid()
      modifies `table
      ensures Valid()
      ensures table == Appended(old(table), target, id, now, body, hash)
      ensures row == table[|table| - 1] && row.content.body == body
              && row.content.sequence == |Ordered(old(table), target)| + 1
    {
      hide GENESIS;
      var rows := Ordered(table, target);
      var prior := if rows == [] then None else Some(rows[|rows| - 1]);
      var sequence := if prior.None? then 1 else prior.value.content.sequence + 1;
      var previous := if prior.None? then GENESIS else prior.value.hash;
      var content := Entry(id, sequence, target, now, body);
      row := Row(content, previous, hash(content, previous));
      forall t
        ensures Accepts(Ordered(Appended(table, target, id, now, body, hash), t), hash)
      {
        AppendAccepted(table, target, id, now, body, hash, t);
      }
      assert Accepts(rows, hash);
      assert row == Row(NextEntry(rows, target, id, now, body), Head(rows), hash(content, Head(rows)));
      table := table + [row];
      assert table == Appended(old(table), target, id, now, body, hash);
    }

    method VerifyTarget(target: string) returns (ok: bool)
      ensures ok <==> Accepts(Ordered(table, target), hash)
      ensures Valid() ==> ok
    {
      hide GENESIS, Accepts, Head, Linked, Ordered;
      var rows := Ordered(table, target);
      var previous := GENESIS;
      AcceptsNothing(hash);
      for i := 0 to |rows|
        invariant Accepts(rows[..i], hash) && previous == Head(rows[..i])
      {
        AcceptsNext(rows, i, hash);
        if rows[i].content.sequence != i + 1 || !Linked(rows[i], previous, hash) {
          if Accepts(rows, hash) {
            TailLossAccepted(rows, i + 1, hash);
          }
          return false;
        }
        previous := rows[i].hash;
      }
      assert rows[..|rows|] == rows;
      return true;
    }
  }
}
