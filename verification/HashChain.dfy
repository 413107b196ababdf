/** Hash chains: rows linked by hashes of their content and of their predecessor's hash.
    Both ledgers are instances.  Nothing is assumed about the hash: where a chain could be
    forged, the forgery exhibits an explicit collision or a preimage of the genesis hash. */
module HashChain {

  function Zeros(n: nat): (s: string)
    ensures |s| == n && forall i :: 0 <= i < n ==> s[i] == '0'
  {
    if n == 0 then "" else Zeros(n - 1) + "0"
  }

  const GENESIS: string := Zeros(64)

  datatype Row<C> = Row(content: C, previous: string, hash: string)

  function Head<C>(rows: seq<Row<C>>): string {
    if rows == [] then GENESIS else rows[|rows| - 1].hash
  }

  predicate Linked<C(==)>(row: Row<C>, previous: string, h: (C, string) -> string) {
    row.previous == previous && row.hash == h(row.content, row.previous)
  }

  predicate Verifies<C(==)>(rows: seq<Row<C>>, h: (C, string) -> string) {
    rows == [] ||
    var init, last := rows[..|rows| - 1], rows[|rows| - 1];
    Verifies(init, h) && Linked(last, Head(init), h)
  }

  /** The verification loop of both ledgers. */
  method Verify<C(==)>(rows: seq<Row<C>>, h: (C, string) -> string) returns (ok: bool)
    ensures ok <==> Verifies(rows, h)
  {
    var previous := GENESIS;
    for i := 0 to |rows|
      invariant Verifies(rows[..i], h) && previous == Head(rows[..i])
    {
      assert rows[..i + 1][..i] == rows[..i];
      if !Linked(rows[i], previous, h) {
        PrefixVerifies(rows, i + 1, h);
        return false;
      }
      previous := rows[i].hash;
    }
    assert rows[..|rows|] == rows;
    return true;
  }

  function Append<C>(rows: seq<Row<C>>, content: C, h: (C, string) -> string): (r: seq<Row<C>>)
    ensures |r| == |rows| + 1 && rows <= r
  {
    rows + [Row(content, Head(rows), h(content, Head(rows)))]
  }

  lemma {:induction false} AppendVerifies<C>(rows: seq<Row<C>>, content: C, h: (C, string) -> string)
    ensures Verifies(Append(rows, content, h), h) <==> Verifies(rows, h)
  {
    var r := Append(rows, content, h);
    assert r[..|r| - 1] == rows;
  }

  /** Any prefix of an accepted chain is accepted: losing the tail is not detected without the head. */
  lemma {:induction false} PrefixVerifies<C>(rows: seq<Row<C>>, n: nat, h: (C, string) -> string)
    requires n <= |rows|
    ensures Verifies(rows, h) ==> Verifies(rows[..n], h)
  {
    if n == |rows| {
      assert rows[..n] == rows;
    } else {
      PrefixVerifies(rows[..|rows| - 1], n, h);
      assert rows[..|rows| - 1][..n] == rows[..n];
    }
  }

  /** Two rows of the chains whose different contents or predecessors have one hash. */
  ghost predicate Collides<C>(rows: seq<Row<C>>, others: seq<Row<C>>, h: (C, string) -> string) {
    exists i, j :: 0 <= i < |rows| && 0 <= j < |others| && Clash(rows[i], others[j], h)
  }

  ghost predicate Clash<C>(row: Row<C>, other: Row<C>, h: (C, string) -> string) {
    && h(row.content, row.previous) == h(other.content, other.previous)
    && (row.content != other.content || row.previous != other.previous)
  }

  /** A row whose content and predecessor have the genesis hash. */
  ghost predicate HitsGenesis<C>(rows: seq<Row<C>>, h: (C, string) -> string) {
    exists i :: 0 <= i < |rows| && h(rows[i].content, rows[i].previous) == GENESIS
  }

  lemma {:induction false} LastLinks<C>(rows: seq<Row<C>>, h: (C, string) -> string)
    requires rows != []
    ensures var n := |rows| - 1;
            Verifies(rows, h) <==> Verifies(rows[..n], h) && Linked(rows[n], Head(rows[..n]), h)
  {
  }

  /** The row follows its predecessor's hash, the first one sixty-four zeros, and has the hash of its content
      and of what it follows. */
  ghost predicate Follows<C>(rows: seq<Row<C>>, i: nat, h: (C, string) -> string)
    requires i < |rows|
  {
    && rows[i].previous == (if i == 0 then Zeros(64) else rows[i - 1].hash)
    && rows[i].hash == h(rows[i].content, rows[i].previous)
  }

  /** A list is accepted exactly when every row follows. */
  lemma {:induction false} AcceptedIff<C>(rows: seq<Row<C>>, h: (C, string) -> string)
    ensures Verifies(rows, h) <==> forall i :: 0 <= i < |rows| ==> Follows(rows, i, h)
  {
    if rows != [] {
      var n := |rows| - 1;
      var init := rows[..n];
      AcceptedIff(init, h);
      LastLinks(rows, h);
      assert forall i :: 0 <= i < n ==> (Follows(init, i, h) <==> Follows(rows, i, h)) by { hide Zeros; }
      assert Follows(rows, n, h) <==> Linked(rows[n], Head(init), h) by { hide Zeros; }
      hide Verifies, Follows, Linked;
    }
  }

  lemma ClashLifts<C>(rows: seq<Row<C>>, others: seq<Row<C>>, m: nat, n: nat, h: (C, string) -> string)
    requires m <= |rows| && n <= |others|
    ensures Collides(rows[..m], others[..n], h) ==> Collides(rows, others, h)
    ensures HitsGenesis(rows[..m], h) ==> HitsGenesis(rows, h)
  {
    hide GENESIS;
    if i, j :| 0 <= i < m && 0 <= j < n && Clash(rows[..m][i], others[..n][j], h) {
      assert Clash(rows[i], others[j], h);
    }
    if i :| 0 <= i < m && h(rows[..m][i].content, rows[..m][i].previous) == GENESIS {
      assert h(rows[i].content, rows[i].previous) == GENESIS;
    }
  }

  lemma {:induction false} LastRow<C>(rows: seq<Row<C>>, others: seq<Row<C>>, h: (C, string) -> string)
    requires rows != [] && Verifies(rows, h)
    ensures rows[|rows| - 1].hash == h(rows[|rows| - 1].content, rows[|rows| - 1].previous)
    ensures rows[|rows| - 1].hash == GENESIS ==> HitsGenesis(rows, h)
    ensures others != [] && Clash(rows[|rows| - 1], others[|others| - 1], h) ==> Collides(rows, others, h)
  {
    hide GENESIS, Clash;
  }

  lemma Rejoin<C>(rows: seq<Row<C>>, others: seq<Row<C>>)
    requires rows != [] && others != []
    requires rows[..|rows| - 1] == others[..|others| - 1] && rows[|rows| - 1] == others[|others| - 1]
    ensures rows == others
  {
    assert rows == rows[..|rows| - 1] + [rows[|rows| - 1]];
    assert others == others[..|others| - 1] + [others[|others| - 1]];
  }

  /** The head determines the whole history: two accepted chains with the same head are row for
      row equal, or they contain a collision or a preimage of the genesis hash. */
  lemma {:induction false} HeadDetermines<C>(rows: seq<Row<C>>, others: seq<Row<C>>, h: (C, string) -> string)
    requires Verifies(rows, h) && Verifies(others, h) && Head(rows) == Head(others)
    ensures rows == others || Collides(rows, others, h) || HitsGenesis(rows, h) || HitsGenesis(others, h)
  {
    hide GENESIS, Collides, HitsGenesis;
    if rows != [] {
      LastRow(rows, others, h);
    }
    if others != [] {
      LastRow(others, rows, h);
    }
    if rows != [] && others != [] {
      var m, n := |rows| - 1, |others| - 1;
      if !Clash(rows[m], others[n], h) {
        assert Head(rows[..m]) == rows[m].previous && Head(others[..n]) == others[n].previous;
        hide Verifies, Linked, Head;
        HeadDetermines(rows[..m], others[..n], h);
        ClashLifts(rows, others, m, n, h);
        ClashLifts(others, rows, n, m, h);
        if rows[..m] == others[..n] {
          Rejoin(rows, others);
        }
      }
    }
  }
}
